/** Where quiet passes lead: exactly when deletion finishes and exactly when an object settles. */
module Limits {
  import opened Json
  import opened Protocol
  import opened Safety
  import opened Quiet

  function Iterate(e: Env, b: Brief, n: nat): Brief {
    if n == 0 then b else QuietNext(e, Iterate(e, b, n - 1))
  }

  lemma NextPass(e: Env, w: World, n: nat)
    requires Lawful(e.codec) && |w.past| > 0 && WellFormed(Passes(e, w, n)) && QuietAt(e, w, n)
    ensures WellFormed(Passes(e, w, n + 1)) && Abs(Passes(e, w, n + 1)) == QuietNext(e, Abs(Passes(e, w, n)))
  {
    QuietPassIsQuietNext(e, Passes(e, w, n));
  }

  lemma {:induction false} PassesStayWellFormed(e: Env, w: World, n: nat)
    requires Lawful(e.codec) && WellFormed(w) && AllQuiet(e, w)
    ensures WellFormed(Passes(e, w, n))
  {
    if n > 0 {
      PassesStayWellFormed(e, w, n - 1);
      NextPass(e, w, n - 1);
    }
  }

  /** The facts that decide, after `n` whole passes. */
  function After(e: Env, w: World, n: nat): Brief
    requires |w.past| > 0
  {
    Abs(Passes(e, w, n))
  }

  lemma {:induction false} IterateIsUnique(e: Env, f: nat -> Brief, n: nat)
    requires forall i: nat :: f(i + 1) == QuietNext(e, f(i))
    ensures f(n) == Iterate(e, f(0), n)
  {
    if n > 0 {
      IterateIsUnique(e, f, n - 1);
      assert f(n - 1 + 1) == QuietNext(e, f(n - 1));
    }
  }

  lemma AfterIterates(e: Env, w: World, n: nat)
    requires Lawful(e.codec) && WellFormed(w) && AllQuiet(e, w)
    ensures After(e, w, n) == Iterate(e, Abs(w), n)
  {
    var f := (i: nat) => if |w.past| > 0 then After(e, w, i) else Gone(map[]);
    forall i: nat
      ensures f(i + 1) == QuietNext(e, f(i))
    {
      PassesStayWellFormed(e, w, i);
      assert QuietAt(e, w, i);
      NextPass(e, w, i);
    }
    IterateIsUnique(e, f, n);
  }

  // ------------------------------------------------------------------ finalizer lists

  lemma {:induction false} WithoutSpec(fs: seq<string>, f: string)
    ensures f !in Without(fs, f)
    ensures forall g :: g != f ==> (g in Without(fs, f) <==> g in fs)
  {
    if fs != [] {
      WithoutSpec(fs[1..], f);
      assert fs == [fs[0]] + fs[1..];
    }
  }

  // ------------------------------------------------------------------ deletion

  predicate Released(e: Env, b: Brief) {
    b.Gone? || Finalizer(e) !in b.finalizers
  }

  /** The entity is still there, and the spec is already on record or (schemas and tables) nothing
      is on record yet. */
  predicate CanRelease(e: Env, b: Brief)
    requires b.Brief?
  {
    match NameOf(e, b.spec.json)
    case None => false
    case Some(name) =>
      && name in b.pinot
      && (SameJson(e.codec, b.recorded, b.spec.json) || (!e.kind.Tenant? && b.recorded == ""))
  }

  predicate BeingDeleted(e: Env, b: Brief) {
    b.Brief? && b.deleting && Finalizer(e) in b.finalizers
  }

  lemma {:induction false} NeverReleased(e: Env, b: Brief, n: nat)
    requires Lawful(e.codec) && BeingDeleted(e, b) && !CanRelease(e, b)
    ensures BeingDeleted(e, Iterate(e, b, n)) && !CanRelease(e, Iterate(e, b, n))
  {
    if n > 0 {
      NeverReleased(e, b, n - 1);
      StaysUnreleased(e, Iterate(e, b, n - 1), Iterate(e, b, n));
    }
  }

  lemma StaysUnreleased(e: Env, b: Brief, next: Brief)
    requires Lawful(e.codec) && BeingDeleted(e, b) && !CanRelease(e, b) && next == QuietNext(e, b)
    ensures BeingDeleted(e, next) && !CanRelease(e, next)
  {
  }

  lemma ReleasedInTime(e: Env, b: Brief)
    requires Lawful(e.codec) && BeingDeleted(e, b) && CanRelease(e, b)
    ensures Released(e, Iterate(e, b, 1)) <==> SameJson(e.codec, b.recorded, b.spec.json)
    ensures Released(e, Iterate(e, b, 2))
    ensures Without(b.finalizers, Finalizer(e)) == [] ==>
              Iterate(e, b, if SameJson(e.codec, b.recorded, b.spec.json) then 1 else 2).Gone?
  {
    WithoutSpec(b.finalizers, Finalizer(e));
    var b1 := Iterate(e, b, 1);
    assert b1 == QuietNext(e, Iterate(e, b, 0));
    assert Iterate(e, b, 2) == QuietNext(e, b1);
    if b1.Brief? && Finalizer(e) !in b1.finalizers { ReleasedStays(e, b1); }
  }

  lemma ReleasedStays(e: Env, b: Brief)
    requires b.Brief? && b.deleting && Finalizer(e) !in b.finalizers
    ensures Released(e, QuietNext(e, b))
  {
  }

  /** Deletion finishes in finitely many quiet passes exactly when the entity is present and the
      recorded JSON is the wanted one or (schemas and tables) empty. It then takes one pass in the
      first case and two in the second. In every other case each pass leaves the object marked and
      still holding the finalizer. */
  lemma DeletionFinishesExactly(e: Env, w: World)
    requires Lawful(e.codec) && WellFormed(w) && AllQuiet(e, w) && BeingDeleted(e, Abs(w))
    ensures (exists n: nat :: Released(e, After(e, w, n))) <==> CanRelease(e, Abs(w))
    ensures CanRelease(e, Abs(w)) ==>
              && Released(e, After(e, w, 2))
              && (Released(e, After(e, w, 1)) <==> SameJson(e.codec, Abs(w).recorded, Abs(w).spec.json))
    ensures !CanRelease(e, Abs(w)) ==> forall n: nat :: BeingDeleted(e, After(e, w, n))
  {
    if CanRelease(e, Abs(w)) {
      ReleasedInTime(e, Abs(w));
      AfterIterates(e, w, 1);
      AfterIterates(e, w, 2);
      assert Released(e, After(e, w, 2));
    } else {
      forall n: nat
        ensures BeingDeleted(e, After(e, w, n))
      {
        AfterIterates(e, w, n);
        NeverReleased(e, Abs(w), n);
      }
    }
  }

  /** With no finalizer but ours, finishing means leaving the API server. */
  lemma DeletedObjectLeavesExactly(e: Env, w: World)
    requires Lawful(e.codec) && WellFormed(w) && AllQuiet(e, w) && BeingDeleted(e, Abs(w))
    requires Without(Abs(w).finalizers, Finalizer(e)) == []
    ensures (exists n: nat :: After(e, w, n).Gone?) <==> CanRelease(e, Abs(w))
    ensures CanRelease(e, Abs(w)) ==>
              After(e, w, if SameJson(e.codec, Abs(w).recorded, Abs(w).spec.json) then 1 else 2).Gone?
  {
    if CanRelease(e, Abs(w)) {
      ReleasedInTime(e, Abs(w));
      AfterIterates(e, w, 1);
      AfterIterates(e, w, 2);
      assert After(e, w, if SameJson(e.codec, Abs(w).recorded, Abs(w).spec.json) then 1 else 2).Gone?;
    } else {
      forall n: nat
        ensures After(e, w, n).Brief?
      {
        AfterIterates(e, w, n);
        NeverReleased(e, Abs(w), n);
      }
    }
  }

  // ------------------------------------------------------------------ convergence

  /** Pinot stores the wanted JSON, the status records it, the finalizer is registered. */
  predicate Settled(e: Env, b: Brief) {
    && b.Brief? && !b.deleting && Finalizer(e) in b.finalizers
    && NameOf(e, b.spec.json).Some?
    && NameOf(e, b.spec.json).value in b.pinot
    && SameJson(e.codec, b.pinot[NameOf(e, b.spec.json).value], b.spec.json)
    && SameJson(e.codec, b.recorded, b.spec.json)
  }

  /** Pinot has nothing yet, or the record says it is outdated, or Pinot is right already and the
      record agrees or (schemas and tables) is still empty. */
  predicate CanSettle(e: Env, b: Brief)
    requires b.Brief?
  {
    match NameOf(e, b.spec.json)
    case None => false
    case Some(name) =>
      || name !in b.pinot
      || IsEqualJson(e.codec, b.recorded, b.spec.json) == Some(false)
      || (&& SameJson(e.codec, b.pinot[name], b.spec.json)
          && (SameJson(e.codec, b.recorded, b.spec.json) || (!e.kind.Tenant? && b.recorded == "")))
  }

  predicate Active(b: Brief) { b.Brief? && !b.deleting }

  /** Distance to the settled state, in passes. */
  function Distance(e: Env, b: Brief): nat
    requires Active(b) && CanSettle(e, b)
  {
    var name := NameOf(e, b.spec.json).value;
    (if name in b.pinot && SameJson(e.codec, b.recorded, b.spec.json) then 0 else 1)
    + (if Finalizer(e) in b.finalizers then 0 else 1)
  }

  lemma DistanceShrinks(e: Env, b: Brief)
    requires Lawful(e.codec) && Active(b) && CanSettle(e, b)
    ensures Active(QuietNext(e, b)) && CanSettle(e, QuietNext(e, b))
    ensures Distance(e, b) == 0 <==> Settled(e, b)
    ensures Distance(e, b) > 0 ==> Distance(e, QuietNext(e, b)) < Distance(e, b)
    ensures Distance(e, b) == 0 ==> QuietNext(e, b) == b
  {
  }

  /** At most `d` passes away from the settled state. */
  predicate Within(e: Env, b: Brief, d: nat) {
    Active(b) && CanSettle(e, b) && Distance(e, b) <= d
  }

  function Less(d: nat, n: nat): nat { if n < d then d - n else 0 }

  lemma OnePassCloser(e: Env, b: Brief, next: Brief, d: nat)
    requires Lawful(e.codec) && Within(e, b, d) && next == QuietNext(e, b)
    ensures Within(e, next, Less(d, 1))
  {
    DistanceShrinks(e, b);
  }

  lemma {:induction false} Descend(within: (nat, nat) -> bool, d: nat, n: nat)
    requires within(0, d) && forall i: nat, k: nat :: within(i, k) ==> within(i + 1, Less(k, 1))
    ensures within(n, Less(d, n))
  {
    if n > 0 {
      Descend(within, d, n - 1);
      assert within(n - 1 + 1, Less(Less(d, n - 1), 1));
    }
  }

  lemma SettlesAfterDistance(e: Env, b: Brief, n: nat)
    requires Lawful(e.codec) && Active(b) && CanSettle(e, b)
    ensures Within(e, Iterate(e, b, n), Less(Distance(e, b), n))
  {
    var within := (i: nat, k: nat) => Within(e, Iterate(e, b, i), k);
    forall i: nat, k: nat | within(i, k)
      ensures within(i + 1, Less(k, 1))
    {
      OnePassCloser(e, Iterate(e, b, i), Iterate(e, b, i + 1), k);
    }
    Descend(within, Distance(e, b), n);
  }

  lemma {:induction false} NeverSettles(e: Env, b: Brief, n: nat)
    requires Lawful(e.codec) && Active(b) && !CanSettle(e, b)
    ensures Active(Iterate(e, b, n)) && !CanSettle(e, Iterate(e, b, n)) && !Settled(e, Iterate(e, b, n))
  {
    if n > 0 {
      NeverSettles(e, b, n - 1);
      StaysUnsettled(e, Iterate(e, b, n - 1), Iterate(e, b, n));
    }
  }

  lemma StaysUnsettled(e: Env, b: Brief, next: Brief)
    requires Lawful(e.codec) && Active(b) && !CanSettle(e, b) && next == QuietNext(e, b)
    ensures Active(next) && !CanSettle(e, next) && !Settled(e, next)
  {
  }

  /** An object settles in finitely many quiet passes exactly under `CanSettle`; then two passes are
      enough, and from there on every pass leaves it settled. */
  lemma SettlesExactly(e: Env, w: World)
    requires Lawful(e.codec) && WellFormed(w) && AllQuiet(e, w) && Active(Abs(w))
    ensures (exists n: nat :: Settled(e, After(e, w, n))) <==> CanSettle(e, Abs(w))
    ensures CanSettle(e, Abs(w)) ==> forall n: nat :: n >= 2 ==> Settled(e, After(e, w, n))
  {
    if CanSettle(e, Abs(w)) {
      forall n: nat | n >= 2
        ensures Settled(e, After(e, w, n))
      {
        AfterIterates(e, w, n);
        SettlesAfterDistance(e, Abs(w), n);
        DistanceShrinks(e, Iterate(e, Abs(w), n));
      }
      assert Settled(e, After(e, w, 2));
    } else {
      forall n: nat
        ensures !Settled(e, After(e, w, n))
      {
        AfterIterates(e, w, n);
        NeverSettles(e, Abs(w), n);
      }
    }
  }

  /** A fresh object with an absent entity settles within two passes, not within one: the pass that
      creates the entity cannot register the finalizer. */
  lemma FreshObjectSettlesInTwo(e: Env, w: World)
    requires Lawful(e.codec) && WellFormed(w) && AllQuiet(e, w) && Active(Abs(w))
    requires NameOf(e, Abs(w).spec.json).Some? && NameOf(e, Abs(w).spec.json).value !in w.pinot
    requires Finalizer(e) !in Abs(w).finalizers
    ensures Settled(e, After(e, w, 2)) && !Settled(e, After(e, w, 1))
    ensures var b := Stored(Abs(w), NameOf(e, Abs(w).spec.json).value);
            After(e, w, 2) == b.(finalizers := b.finalizers + [Finalizer(e)])
  {
    AfterIterates(e, w, 1);
    AfterIterates(e, w, 2);
    SettlesExactly(e, w);
    var b := Abs(w);
    assert Iterate(e, b, 1) == QuietNext(e, Iterate(e, b, 0));
    assert Iterate(e, b, 2) == QuietNext(e, Iterate(e, b, 1));
    assert e.codec.decode(b.spec.json).Some?;
  }

  /** After an edit that keeps the entity name, one pass settles a settled object again. */
  lemma EditSettlesInOne(e: Env, b: Brief, edited: Spec)
    requires Lawful(e.codec) && Settled(e, b)
    requires NameOf(e, edited.json) == NameOf(e, b.spec.json)
    ensures Settled(e, QuietNext(e, b.(spec := edited)))
  {
    assert e.codec.decode(edited.json).Some?;
  }

  /** The same for whole passes: edit a settled object, let one quiet pass run. */
  lemma EditedObjectSettlesInOnePass(e: Env, w: World, edited: Spec)
    requires Lawful(e.codec) && WellFormed(w) && Settled(e, Abs(w))
    requires NameOf(e, edited.json) == NameOf(e, Abs(w).spec.json)
    requires QuietPass(e, Interfere(w, EditSpec(edited)))
    ensures Settled(e, Abs(Reconcile(e, Interfere(w, EditSpec(edited)))))
  {
    var w' := Interfere(w, EditSpec(edited));
    CommitExtends(w, w.live.value.(spec := edited));
    QuietPassIsQuietNext(e, w');
    EditSettlesInOne(e, Abs(w), edited);
  }

  /** A settled object costs nothing: a quiet pass commits no version, sends no write and leaves
      Pinot alone. */
  lemma SettledPassWritesNothing(e: Env, w: World)
    requires Lawful(e.codec) && WellFormed(w) && QuietPass(e, w) && Settled(e, Abs(w))
    ensures var r := Reconcile(e, w);
            r.past == w.past && r.live == w.live && r.pinot == w.pinot && r.deletes == w.deletes && r.tally == NOTHING
  {
    var o := w.live.value;
    QuietArrive(e, w.(tally := NOTHING));
    var s1 := Step(e, Sys(w, Idle));
    assert s1.pass == Lookup(o);
    QuietStep(e, s1);
    var s2 := Step(e, s1);
    QuietStep(e, s2);
    assert Step(e, s2).pass == Finalize(e, o);
  }

  predicate RecordedAndPresent(e: Env, b: Brief) {
    && Active(b) && NameOf(e, b.spec.json).Some? && NameOf(e, b.spec.json).value in b.pinot
    && SameJson(e.codec, b.recorded, b.spec.json)
  }

  lemma RecordedPassSendsNothing(e: Env, w: World)
    requires Lawful(e.codec) && WellFormed(w) && QuietPass(e, w) && RecordedAndPresent(e, Abs(w))
    ensures var r := Reconcile(e, w);
            r.tally.posts == 0 && r.tally.puts == 0 && r.tally.statusWrites == 0 && r.pinot == w.pinot
  {
    var o, name := w.live.value, NameOf(e, w.live.value.spec.json).value;
    var w0 := w.(tally := NOTHING);
    QuietArrive(e, w0);
    var s1 := Step(e, Sys(w, Idle));
    assert s1 == Sys(w0.(clock := w.clock + 1), Lookup(o));
    QuietStep(e, s1);
    var s2 := Step(e, s1);
    assert s2 == Sys(w0.(clock := w.clock + 2), Get(o, name));
    QuietStep(e, s2);
    var s3 := Step(e, s2);
    assert s3 == Sys(w0.(clock := w.clock + 3), Finalize(e, o));
    if s3.pass.AddFinalizer? { QuietStep(e, s3); }
  }

  /** What is on record decides alone: when it already equals the spec and the entity exists, quiet
      passes never send a POST or a PUT and never write the status, whatever Pinot stores; all they
      may do is register the finalizer. */
  lemma RecordedDriftStays(e: Env, w: World, n: nat)
    requires Lawful(e.codec) && WellFormed(w) && AllQuiet(e, w) && RecordedAndPresent(e, Abs(w))
    ensures After(e, w, n) == Abs(w) || After(e, w, n) == Abs(w).(finalizers := Abs(w).finalizers + [Finalizer(e)])
    ensures var t := Passes(e, w, n + 1).tally;
            t.posts == 0 && t.puts == 0 && t.statusWrites == 0
  {
    AfterIterates(e, w, n);
    DriftIterate(e, Abs(w), n);
    PassesStayWellFormed(e, w, n);
    assert QuietAt(e, w, n);
    RecordedPassSendsNothing(e, Passes(e, w, n));
  }

  lemma DriftNext(e: Env, b: Brief, r: Brief, next: Brief)
    requires Lawful(e.codec) && RecordedAndPresent(e, b) && next == QuietNext(e, r)
    requires r == b || r == b.(finalizers := b.finalizers + [Finalizer(e)])
    ensures next == b || next == b.(finalizers := b.finalizers + [Finalizer(e)])
  {
  }

  lemma DriftIterate(e: Env, b: Brief, n: nat)
    requires RecordedAndPresent(e, b) && Lawful(e.codec)
    ensures var r := Iterate(e, b, n); r == b || r == b.(finalizers := b.finalizers + [Finalizer(e)])
  {
    var holds := (i: nat) => Iterate(e, b, i) == b || Iterate(e, b, i) == b.(finalizers := b.finalizers + [Finalizer(e)]);
    forall i: nat | holds(i)
      ensures holds(i + 1)
    {
      DriftNext(e, b, Iterate(e, b, i), Iterate(e, b, i + 1));
    }
    Always(holds, n);
  }
}
