/** What every step of every interleaving keeps: well-formed version history, at most one kind of
    API write per pass, no lost edits. Nothing is assumed about the tape here. */
module Safety {
  import opened Json
  import opened Protocol

  // ------------------------------------------------------------------ well-formed worlds

  ghost predicate Ordered(past: seq<CR>) {
    forall i, j :: 0 <= i < j < |past| ==>
      past[i].version < past[j].version && (past[i].deleting ==> past[j].deleting)
  }

  ghost predicate WellFormed(w: World) {
    && |w.past| > 0
    && Ordered(w.past)
    && match w.live
       case Some(o) => o == Latest(w) && (o.deleting ==> o.finalizers != [])
       case None => Latest(w).deleting && Latest(w).finalizers == []
  }

  /** Worlds only ever append versions; nothing a pass has logged changes behind its back. */
  ghost predicate Extends(w: World, w': World) {
    && WellFormed(w')
    && w.past <= w'.past
    && (w.live.None? ==> w'.live.None? && w'.past == w.past)
  }

  ghost predicate SameLogs(w: World, w': World) {
    w'.tally == w.tally && w'.deletes == w.deletes
  }

  lemma CommitExtends(w: World, o: CR)
    requires WellFormed(w) && w.live.Some? && (w.live.value.deleting ==> o.deleting)
    ensures Extends(w, Commit(w, o)) && SameLogs(w, Commit(w, o))
  {
  }

  lemma InterfereExtends(w: World, a: EnvAction)
    requires WellFormed(w)
    ensures var w' := Interfere(w, a);
            && Extends(w, w') && SameLogs(w, w')
            && (w'.past == w.past || (w.live.Some? && w'.past == w.past + [Latest(w')]))
  {
  }

  lemma {:induction false} InterfereAllExtends(w: World, acts: seq<EnvAction>)
    requires WellFormed(w)
    ensures Extends(w, InterfereAll(w, acts)) && SameLogs(w, InterfereAll(w, acts))
    decreases |acts|
  {
    if acts != [] {
      InterfereExtends(w, acts[0]);
      InterfereAllExtends(Interfere(w, acts[0]), acts[1..]);
    }
  }

  lemma ArriveExtends(e: Env, w: World)
    requires WellFormed(w)
    ensures Extends(w, Arrive(e, w)) && SameLogs(w, Arrive(e, w))
  {
    InterfereAllExtends(w, e.tape(w.clock).before);
  }

  lemma ReadIsPast(e: Env, w: World)
    requires WellFormed(w)
    ensures ReadObject(e, w).Some? ==> ReadObject(e, w).value in Arrive(e, w).past
  {
    ArriveExtends(e, w);
  }

  // ------------------------------------------------------------------ one pass, any interleaving

  function CopyOf(p: Pass): Option<CR> {
    match p
    case Idle => None
    case PatchRead(_, _, _) => None
    case Lookup(c) => Some(c)
    case Get(c, _) => Some(c)
    case Post(c, _) => Some(c)
    case PatchWrite(c, _, _, _) => Some(c)
    case Put(c, _, _) => Some(c)
    case AddFinalizer(c) => Some(c)
    case LookupAgain(c) => Some(c)
    case Delete(c, _) => Some(c)
    case RemoveFinalizer(c) => Some(c)
  }

  predicate InFinalizerStage(p: Pass) {
    p.AddFinalizer? || p.LookupAgain? || p.Delete? || p.RemoveFinalizer?
  }

  /** No POST and no accepted PUT; outside the tenant controller no PUT at all. */
  predicate Gentle(k: Kind, t: Tally) {
    t.posts == 0 && t.puts == t.rejectedPuts && (k.Tenant? || t.puts == 0)
  }

  ghost predicate CopyIsKnown(w: World, p: Pass) {
    CopyOf(p).Some? ==> CopyOf(p).value in w.past
  }

  /** Relates the control point of a pass to what it has sent and committed. */
  ghost predicate Books(k: Kind, w: World, p: Pass)
    requires |w.past| > 0
  {
    var t := w.tally;
    && (!p.Idle? ==> t.finalizerWrites == 0)
    && t.finalizerWrites <= 1
    && (t.finalizerWrites > 0 ==> t.statusWrites == 0 && Gentle(k, t))
    && (p.Lookup? || p.Get? || p.Post? || (p.PatchRead? && p.adopting) || (p.PatchWrite? && p.adopting)
        ==> t == NOTHING)
    && (p.Put? ==> t.posts == 0 && t.puts == 0 && t.rejectedPuts == 0)
    && (p.Put? && k.Tenant? ==> t.statusWrites == 0)
    && (p.Put? || InFinalizerStage(p) ==> t.statusWrites == 0 || CopyOf(p).value.version < Latest(w).version)
    && (InFinalizerStage(p) && t.statusWrites == 0 ==> Gentle(k, t))
  }

  ghost predicate Inv(k: Kind, s: Sys) {
    WellFormed(s.world) && CopyIsKnown(s.world, s.pass) && Books(k, s.world, s.pass)
  }

  /** The tenant controller never adopts. */
  ghost predicate TenantsDoNotAdopt(k: Kind, p: Pass) {
    k.Tenant? ==> !(p.PatchRead? && p.adopting) && !(p.PatchWrite? && p.adopting)
  }

  lemma KnownVersion(w: World, copy: CR)
    requires WellFormed(w) && copy in w.past
    ensures copy.version <= Latest(w).version
    ensures copy.version == Latest(w).version ==> copy == Latest(w)
    ensures copy.deleting ==> Latest(w).deleting
  {
    var i :| 0 <= i < |w.past| && w.past[i] == copy;
    if i < |w.past| - 1 {
      assert w.past[i].version < w.past[|w.past| - 1].version;
    }
  }

  lemma PatchExtends(e: Env, w: World, base: Status, target: Status)
    requires WellFormed(w)
    ensures Extends(w, PatchObject(e, w, base, target))
    ensures var r, a := PatchObject(e, w, base, target), Arrive(e, w);
            && r.deletes == w.deletes
            && (r.tally == w.tally || r.tally == w.tally.(statusWrites := w.tally.statusWrites + 1))
            && (PatchSucceeds(e, w) ==> r.tally != w.tally && Latest(r).version == Latest(a).version + 1)
  {
    ArriveExtends(e, w);
    var a := Arrive(e, w);
    if a.live.Some? {
      var o := a.live.value;
      CommitExtends(a, o.(status := MergeStatus(o.status, base, target)));
    }
  }

  lemma UpdateExtends(e: Env, w: World, copy: CR)
    requires WellFormed(w)
    ensures Extends(w, UpdateObject(e, w, copy))
    ensures var r, a := UpdateObject(e, w, copy), Arrive(e, w);
            && r.deletes == w.deletes
            && (r.tally == w.tally ||
                (r.tally == w.tally.(finalizerWrites := w.tally.finalizerWrites + 1) &&
                 Latest(a).version == copy.version))
  {
    ArriveExtends(e, w);
    var a := Arrive(e, w);
    if a.live.Some? {
      CommitExtends(a, a.live.value.(spec := copy.spec, finalizers := copy.finalizers));
    }
  }

  /** The world in which a step makes its call. */
  function Caller(s: Sys): World {
    if s.pass.Idle? then s.world.(tally := NOTHING) else s.world
  }

  /** The three kinds of step: a patch, an update, and calls that commit nothing. */
  lemma StepWorld(e: Env, s: Sys)
    requires |s.world.past| > 0
    ensures var w, w' := Caller(s), Step(e, s).world;
            match s.pass
            case PatchWrite(copy, _, note, _) =>
              w' == PatchObject(e, w, copy.status, Stamp(e.kind, copy, note, e.tape(w.clock).now))
            case AddFinalizer(copy) =>
              w' == UpdateObject(e, w, copy.(finalizers := copy.finalizers + [Finalizer(e)]))
            case RemoveFinalizer(copy) =>
              w' == UpdateObject(e, w, copy.(finalizers := Without(copy.finalizers, Finalizer(e))))
            case _ =>
              w'.past == Arrive(e, w).past && w'.live == Arrive(e, w).live
  {
  }

  lemma StepExtends(e: Env, s: Sys)
    requires WellFormed(s.world)
    ensures Extends(s.world, Step(e, s).world)
  {
    var w := Caller(s);
    StepWorld(e, s);
    match s.pass
    case PatchWrite(copy, _, note, _) =>
      PatchExtends(e, w, copy.status, Stamp(e.kind, copy, note, e.tape(w.clock).now));
    case AddFinalizer(copy) =>
      UpdateExtends(e, w, copy.(finalizers := copy.finalizers + [Finalizer(e)]));
    case RemoveFinalizer(copy) =>
      UpdateExtends(e, w, copy.(finalizers := Without(copy.finalizers, Finalizer(e))));
    case _ => ArriveExtends(e, w);
  }

  /** A pass works on the copy it has or on the one it has just read. */
  lemma NextCopy(e: Env, s: Sys)
    requires |s.world.past| > 0
    ensures var s' := Step(e, s);
            CopyOf(s'.pass).None? || CopyOf(s'.pass) == CopyOf(s.pass) ||
            (CopyOf(s'.pass) == ReadObject(e, Caller(s)) && s'.world.past == Arrive(e, Caller(s)).past)
  {
  }

  lemma StillKnown(w: World, w': World, o: CR)
    requires Extends(w, w') && o in w.past
    ensures o in w'.past
  {
    var i :| 0 <= i < |w.past| && w.past[i] == o;
    assert w'.past[i] == o;
  }

  lemma StepKeepsCopy(e: Env, s: Sys)
    requires WellFormed(s.world) && CopyIsKnown(s.world, s.pass)
    ensures CopyIsKnown(Step(e, s).world, Step(e, s).pass)
  {
    NextCopy(e, s);
    StepExtends(e, s);
    ReadIsPast(e, Caller(s));
    if CopyOf(s.pass).Some? { StillKnown(s.world, Step(e, s).world, CopyOf(s.pass).value); }
  }

  predicate WritesToApi(p: Pass) {
    p.PatchWrite? || p.AddFinalizer? || p.RemoveFinalizer?
  }

  lemma CallKeepsBooks(e: Env, s: Sys)
    requires |s.world.past| > 0 && !WritesToApi(s.pass)
    requires Books(e.kind, s.world, s.pass) && TenantsDoNotAdopt(e.kind, s.pass)
    requires SameLogs(Caller(s), Arrive(e, Caller(s)))
    requires Latest(s.world).version <= Latest(Arrive(e, Caller(s))).version
    ensures Books(e.kind, Step(e, s).world, Step(e, s).pass)
    ensures TenantsDoNotAdopt(e.kind, Step(e, s).pass)
  {
  }

  lemma PatchKeepsBooks(e: Env, s: Sys)
    requires WellFormed(s.world) && s.pass.PatchWrite? && s.pass.copy in s.world.past
    requires Books(e.kind, s.world, s.pass) && TenantsDoNotAdopt(e.kind, s.pass)
    ensures Books(e.kind, Step(e, s).world, Step(e, s).pass)
    ensures TenantsDoNotAdopt(e.kind, Step(e, s).pass)
  {
    var w, copy := s.world, s.pass.copy;
    ArriveExtends(e, w);
    KnownVersion(Arrive(e, w), copy);
    PatchExtends(e, w, copy.status, Stamp(e.kind, copy, s.pass.note, e.tape(w.clock).now));
  }

  lemma UpdateKeepsBooks(e: Env, s: Sys)
    requires WellFormed(s.world) && (s.pass.AddFinalizer? || s.pass.RemoveFinalizer?)
    requires Books(e.kind, s.world, s.pass)
    ensures Books(e.kind, Step(e, s).world, Step(e, s).pass)
  {
    var w, copy := s.world, s.pass.copy;
    ArriveExtends(e, w);
    StaleStaysStale(w, Arrive(e, w));
    if s.pass.AddFinalizer? {
      UpdateExtends(e, w, copy.(finalizers := copy.finalizers + [Finalizer(e)]));
    } else {
      UpdateExtends(e, w, copy.(finalizers := Without(copy.finalizers, Finalizer(e))));
    }
  }

  lemma StepKeepsBooks(e: Env, s: Sys)
    requires Inv(e.kind, s) && TenantsDoNotAdopt(e.kind, s.pass)
    ensures Books(e.kind, Step(e, s).world, Step(e, s).pass)
    ensures TenantsDoNotAdopt(e.kind, Step(e, s).pass)
  {
    if s.pass.PatchWrite? {
      PatchKeepsBooks(e, s);
    } else if s.pass.AddFinalizer? || s.pass.RemoveFinalizer? {
      UpdateKeepsBooks(e, s);
    } else {
      ArriveExtends(e, Caller(s));
      StaleStaysStale(Caller(s), Arrive(e, Caller(s)));
      CallKeepsBooks(e, s);
    }
  }

  lemma StaleStaysStale(w: World, w': World)
    requires WellFormed(w) && Extends(w, w')
    ensures Latest(w).version <= Latest(w').version
  {
    if |w.past| < |w'.past| {
      assert w'.past[|w.past| - 1] == Latest(w);
    }
  }

  lemma StepKeepsInv(e: Env, s: Sys)
    requires Inv(e.kind, s) && TenantsDoNotAdopt(e.kind, s.pass)
    ensures Inv(e.kind, Step(e, s)) && TenantsDoNotAdopt(e.kind, Step(e, s).pass)
  {
    StepExtends(e, s);
    StepKeepsCopy(e, s);
    StepKeepsBooks(e, s);
  }

  /** Induction on the number of calls or passes. */
  lemma {:induction false} Always(holds: nat -> bool, n: nat)
    requires holds(0) && forall i: nat :: holds(i) ==> holds(i + 1)
    ensures holds(n)
  {
    if n > 0 {
      Always(holds, n - 1);
      assert holds(n - 1 + 1);
    }
  }

  /** What every step keeps holds at every moment of a run. */
  lemma {:induction false} RunKeeps(e: Env, s: Sys, holds: Sys -> bool, n: nat)
    requires |s.world.past| > 0 && holds(s)
    requires forall t: Sys {:trigger Step(e, t)} :: |t.world.past| > 0 && holds(t) ==> holds(Step(e, t))
    ensures holds(At(e, s, n))
  {
    if n > 0 { RunKeeps(e, s, holds, n - 1); }
  }

  lemma RunKeepsInv(e: Env, s: Sys, n: nat)
    requires Inv(e.kind, s) && TenantsDoNotAdopt(e.kind, s.pass)
    ensures Inv(e.kind, At(e, s, n)) && TenantsDoNotAdopt(e.kind, At(e, s, n).pass)
  {
    var holds := (t: Sys) => Inv(e.kind, t) && TenantsDoNotAdopt(e.kind, t.pass);
    forall t: Sys | |t.world.past| > 0 && holds(t)
      ensures holds(Step(e, t))
    {
      StepKeepsInv(e, t);
    }
    RunKeeps(e, s, holds, n);
  }

  /** Between two passes, nothing sent yet. */
  ghost predicate Start(s: Sys) {
    WellFormed(s.world) && s.pass.Idle? && s.world.tally == NOTHING
  }

  /** At every moment of every run, whatever interleaves and whatever is read stale: the current
      pass has not committed both a status write and a finalizer write, and if it committed a
      finalizer write it sent no POST and no PUT that Pinot could have accepted (schemas and tables:
      no PUT at all). */
  lemma VersionSafety(e: Env, s: Sys, n: nat)
    requires Start(s)
    ensures var t := At(e, s, n).world.tally;
            && (t.statusWrites == 0 || t.finalizerWrites == 0)
            && t.finalizerWrites <= 1
            && (t.finalizerWrites > 0 ==> t.posts == 0 && t.puts == t.rejectedPuts)
            && (t.finalizerWrites > 0 && !e.kind.Tenant? ==> t.puts == 0)
  {
    RunKeepsInv(e, s, n);
  }

  /** The object goes from `before` to `after` by gaining or losing only our finalizer. */
  predicate OnlyFinalizerChanged(e: Env, before: CR, after: CR) {
    && after == before.(finalizers := after.finalizers, version := before.version + 1)
    && (after.finalizers == before.finalizers + [Finalizer(e)] ||
        after.finalizers == Without(before.finalizers, Finalizer(e)))
  }

  lemma UpdateChangesOnlyFinalizers(e: Env, w: World, copy: CR, fs: seq<string>)
    requires WellFormed(w) && copy in Arrive(e, w).past
    requires UpdateObject(e, w, copy.(finalizers := fs)).tally != w.tally
    ensures var a, past := Arrive(e, w), UpdateObject(e, w, copy.(finalizers := fs)).past;
            && past == a.past + [Latest(a).(finalizers := fs, version := Latest(a).version + 1)]
            && copy == Latest(a)
  {
    ArriveExtends(e, w);
    KnownVersion(Arrive(e, w), copy);
  }

  lemma StepLosesNoEdit(e: Env, t: Sys)
    requires Inv(e.kind, t) && !t.pass.Idle? && Step(e, t).world.tally.finalizerWrites > 0
    ensures var past := Step(e, t).world.past;
            |past| >= 2 && OnlyFinalizerChanged(e, past[|past| - 2], past[|past| - 1])
  {
    ArriveExtends(e, t.world);
    var w := t.world;
    match t.pass
    case PatchWrite(copy, _, note, _) =>
      PatchExtends(e, w, copy.status, Stamp(e.kind, copy, note, e.tape(w.clock).now));
    case AddFinalizer(copy) =>
      UpdateChangesOnlyFinalizers(e, w, copy, copy.finalizers + [Finalizer(e)]);
    case RemoveFinalizer(copy) =>
      UpdateChangesOnlyFinalizers(e, w, copy, Without(copy.finalizers, Finalizer(e)));
    case _ =>
  }

  /** The full-object update never takes back a concurrent edit: a call that commits a finalizer
      write starts from the newest version and changes nothing else in it. */
  lemma FinalizerWriteLosesNoEdit(e: Env, s: Sys, n: nat)
    requires Start(s)
    requires !At(e, s, n).pass.Idle? && At(e, s, n + 1).world.tally.finalizerWrites > 0
    ensures var past := At(e, s, n + 1).world.past;
            |past| >= 2 && OnlyFinalizerChanged(e, past[|past| - 2], past[|past| - 1])
  {
    RunKeepsInv(e, s, n);
    StepLosesNoEdit(e, At(e, s, n));
  }

  // ------------------------------------------------------------------ history

  ghost predicate KeepsRecorded(a: EnvAction) {
    a.EditStatus? ==> forall st :: a.status(st).currentJson == st.currentJson
  }

  ghost predicate OnlyControllersRecord(e: Env) {
    forall i: nat, j: nat :: j < |e.tape(i).before| ==> KeepsRecorded(e.tape(i).before[j])
  }

  ghost predicate HeldUpTo(past: seq<CR>, i: nat, json: string) {
    exists j :: 0 <= j <= i && j < |past| && past[j].spec.json == json
  }

  ghost predicate RecordsHistory(past: seq<CR>) {
    forall i :: 0 <= i < |past| ==>
      past[i].status.currentJson == "" || HeldUpTo(past, i, past[i].status.currentJson)
  }

  ghost predicate Mentions(past: seq<CR>, json: string) {
    exists c :: c in past && (c.spec.json == json || c.status.currentJson == json)
  }

  lemma HeldLater(past: seq<CR>, i: nat, all: seq<CR>, i': nat, json: string)
    requires HeldUpTo(past, i, json) && past <= all && i <= i'
    ensures HeldUpTo(all, i', json)
  {
    var j :| 0 <= j <= i && j < |past| && past[j].spec.json == json;
    assert all[j] == past[j];
  }

  lemma MentionedWasHeld(past: seq<CR>, json: string)
    requires RecordsHistory(past) && Mentions(past, json) && json != ""
    ensures HeldUpTo(past, |past|, json)
  {
    var c :| c in past && (c.spec.json == json || c.status.currentJson == json);
    var k :| 0 <= k < |past| && past[k] == c;
    if c.spec.json != json { HeldLater(past, k, past, |past|, json); }
  }

  lemma AppendKeepsHistory(past: seq<CR>, o: CR)
    requires RecordsHistory(past)
    requires o.status.currentJson == "" || Mentions(past, o.status.currentJson)
    ensures RecordsHistory(past + [o])
  {
    forall i | 0 <= i < |past + [o]| && (past + [o])[i].status.currentJson != ""
      ensures HeldUpTo(past + [o], i, (past + [o])[i].status.currentJson)
    {
      AppendedWasHeld(past, o, i);
    }
  }

  lemma AppendedWasHeld(past: seq<CR>, o: CR, i: nat)
    requires RecordsHistory(past) && i <= |past|
    requires o.status.currentJson == "" || Mentions(past, o.status.currentJson)
    requires (past + [o])[i].status.currentJson != ""
    ensures HeldUpTo(past + [o], i, (past + [o])[i].status.currentJson)
  {
    if i < |past| {
      HeldLater(past, i, past + [o], i, past[i].status.currentJson);
    } else {
      MentionedWasHeld(past, o.status.currentJson);
      HeldLater(past, |past|, past + [o], i, o.status.currentJson);
    }
  }

  lemma ActionKeepsHistory(w: World, a: EnvAction)
    requires WellFormed(w) && RecordsHistory(w.past) && KeepsRecorded(a)
    ensures RecordsHistory(Interfere(w, a).past)
  {
    var w1 := Interfere(w, a);
    InterfereExtends(w, a);
    if w1.past != w.past {
      assert w.live.value in w.past;
      AppendKeepsHistory(w.past, Latest(w1));
    }
  }

  lemma {:induction false} InterfereKeepsHistory(w: World, acts: seq<EnvAction>)
    requires WellFormed(w) && RecordsHistory(w.past)
    requires forall j :: 0 <= j < |acts| ==> KeepsRecorded(acts[j])
    ensures RecordsHistory(InterfereAll(w, acts).past)
    decreases |acts|
  {
    if acts != [] {
      InterfereExtends(w, acts[0]);
      ActionKeepsHistory(w, acts[0]);
      InterfereKeepsHistory(Interfere(w, acts[0]), acts[1..]);
    }
  }

  lemma PatchKeepsHistory(e: Env, w: World, copy: CR, note: Note, now: nat)
    requires |w.past| > 0 && WellFormed(Arrive(e, w)) && RecordsHistory(Arrive(e, w).past) && copy in Arrive(e, w).past
    ensures RecordsHistory(PatchObject(e, w, copy.status, Stamp(e.kind, copy, note, now)).past)
  {
    var a, r := Arrive(e, w), PatchObject(e, w, copy.status, Stamp(e.kind, copy, note, now));
    if r.past != a.past {
      assert a.live.value in a.past;
      AppendKeepsHistory(a.past, Latest(r));
    }
  }

  lemma UpdateKeepsHistory(e: Env, w: World, copy: CR)
    requires |w.past| > 0 && WellFormed(Arrive(e, w)) && RecordsHistory(Arrive(e, w).past)
    ensures RecordsHistory(UpdateObject(e, w, copy).past)
  {
    var a, r := Arrive(e, w), UpdateObject(e, w, copy);
    if r.past != a.past {
      assert a.live.value in a.past;
      AppendKeepsHistory(a.past, Latest(r));
    }
  }

  lemma WriteKeepsHistory(e: Env, s: Sys)
    requires |s.world.past| > 0 && WritesToApi(s.pass) && WellFormed(Arrive(e, s.world))
    requires RecordsHistory(Arrive(e, s.world).past) && CopyOf(s.pass).value in Arrive(e, s.world).past
    ensures RecordsHistory(Step(e, s).world.past)
  {
    var w, copy := s.world, s.pass.copy;
    match s.pass
    case PatchWrite(_, _, note, _) => PatchKeepsHistory(e, w, copy, note, e.tape(w.clock).now);
    case AddFinalizer(_) => UpdateKeepsHistory(e, w, copy.(finalizers := copy.finalizers + [Finalizer(e)]));
    case RemoveFinalizer(_) => UpdateKeepsHistory(e, w, copy.(finalizers := Without(copy.finalizers, Finalizer(e))));
  }

  lemma StepKeepsHistory(e: Env, s: Sys)
    requires WellFormed(s.world) && CopyIsKnown(s.world, s.pass)
    requires OnlyControllersRecord(e) && RecordsHistory(s.world.past)
    ensures RecordsHistory(Step(e, s).world.past)
  {
    var w := Caller(s);
    ArriveExtends(e, w);
    InterfereKeepsHistory(w, e.tape(w.clock).before);
    if WritesToApi(s.pass) {
      StillKnown(w, Arrive(e, w), CopyOf(s.pass).value);
      WriteKeepsHistory(e, s);
    } else {
      NothingCommitted(e, s);
    }
  }

  lemma NothingCommitted(e: Env, s: Sys)
    requires |s.world.past| > 0 && !WritesToApi(s.pass)
    ensures Step(e, s).world.past == Arrive(e, Caller(s)).past
  {
  }

  /** Whatever interleaves, including spec edits in the middle of a pass: the recorded current JSON
      of every version is empty or is a spec JSON the same object held no later than that version. */
  lemma RecordedJsonWasOnceWanted(e: Env, s: Sys, n: nat)
    requires Start(s) && OnlyControllersRecord(e) && RecordsHistory(s.world.past)
    ensures RecordsHistory(At(e, s, n).world.past)
  {
    var holds := (t: Sys) => Inv(e.kind, t) && TenantsDoNotAdopt(e.kind, t.pass) && RecordsHistory(t.world.past);
    forall t: Sys | |t.world.past| > 0 && holds(t)
      ensures holds(Step(e, t))
    {
      StepKeepsInv(e, t);
      StepKeepsHistory(e, t);
    }
    RunKeeps(e, s, holds, n);
  }

  // ------------------------------------------------------------------ finalizers

  ghost predicate KeepsFinalizer(f: string, a: EnvAction) {
    a.EditFinalizers? ==> forall fs :: f in fs ==> f in a.finalizers(fs)
  }

  ghost predicate OnlyWeRemove(e: Env) {
    forall i: nat, j: nat :: j < |e.tape(i).before| ==> KeepsFinalizer(Finalizer(e), e.tape(i).before[j])
  }

  ghost predicate EverHeld(past: seq<CR>, f: string) {
    exists i :: 0 <= i < |past| && f in past[i].finalizers
  }

  /** A DELETE was sent while the object was marked, and a reply came back. */
  ghost predicate AnsweredDelete(w: World) {
    exists i :: 0 <= i < |w.deletes| && w.deletes[i].answered && w.deletes[i].marked
  }

  ghost predicate ReleasedOnlyAfterDelete(f: string, w: World)
    requires |w.past| > 0
  {
    EverHeld(w.past, f) && f !in Latest(w).finalizers ==> AnsweredDelete(w)
  }

  ghost predicate Guarded(e: Env, s: Sys)
    requires |s.world.past| > 0
  {
    && (forall i :: 0 <= i < |s.world.deletes| ==> s.world.deletes[i].marked)
    && ReleasedOnlyAfterDelete(Finalizer(e), s.world)
    && (s.pass.RemoveFinalizer? ==> AnsweredDelete(s.world))
    && (Deleting(s.pass) ==> CopyOf(s.pass).value.deleting)
  }

  lemma {:induction false} InterfereKeepsFinalizer(f: string, w: World, acts: seq<EnvAction>)
    requires WellFormed(w) && ReleasedOnlyAfterDelete(f, w)
    requires forall j :: 0 <= j < |acts| ==> KeepsFinalizer(f, acts[j])
    ensures ReleasedOnlyAfterDelete(f, InterfereAll(w, acts))
    decreases |acts|
  {
    if acts != [] {
      assert KeepsFinalizer(f, acts[0]);
      var w1 := Interfere(w, acts[0]);
      InterfereExtends(w, acts[0]);
      if w1.past != w.past {
        if EverHeld(w1.past, f) && f !in Latest(w1).finalizers { HeldBefore(w.past, Latest(w1), f); }
      }
      InterfereKeepsFinalizer(f, w1, acts[1..]);
    }
  }

  lemma HeldBefore(past: seq<CR>, o: CR, f: string)
    requires EverHeld(past + [o], f) && f !in o.finalizers
    ensures EverHeld(past, f)
  {
    var i :| 0 <= i < |past + [o]| && f in (past + [o])[i].finalizers;
    assert past[i] == (past + [o])[i];
  }

  /** The control points between the decision to delete and the removal of the finalizer. */
  predicate Deleting(p: Pass) { p.LookupAgain? || p.Delete? || p.RemoveFinalizer? }

  /** Only a DELETE leads to the removal, and only a marked copy leads there at all. */
  lemma NextDeleting(e: Env, s: Sys)
    requires |s.world.past| > 0 && Deleting(Step(e, s).pass)
    requires Deleting(s.pass) ==> CopyOf(s.pass).value.deleting
    ensures CopyOf(Step(e, s).pass).value.deleting
    ensures Step(e, s).pass.RemoveFinalizer? ==> s.pass.Delete?
  {
  }

  lemma GuardPassesOn(e: Env, a: World, s': Sys)
    requires |s'.world.past| > 0 && s'.world.deletes == a.deletes
    requires forall i :: 0 <= i < |a.deletes| ==> a.deletes[i].marked
    requires ReleasedOnlyAfterDelete(Finalizer(e), s'.world) && !s'.pass.RemoveFinalizer?
    requires Deleting(s'.pass) ==> CopyOf(s'.pass).value.deleting
    ensures Guarded(e, s')
  {
  }

  lemma CallCommitsNothing(e: Env, s: Sys)
    requires |s.world.past| > 0 && !WritesToApi(s.pass) && !s.pass.Delete?
    ensures Step(e, s).world.past == Arrive(e, Caller(s)).past
    ensures Step(e, s).world.deletes == Arrive(e, Caller(s)).deletes
  {
  }

  /** A call that commits nothing passes the guard on from the arrived world. */
  lemma CallKeepsGuard(e: Env, s: Sys)
    requires |s.world.past| > 0 && !WritesToApi(s.pass) && !s.pass.Delete?
    requires Guarded(e, s) && SameLogs(Caller(s), Arrive(e, Caller(s)))
    requires ReleasedOnlyAfterDelete(Finalizer(e), Arrive(e, Caller(s)))
    ensures Guarded(e, Step(e, s))
  {
    CallCommitsNothing(e, s);
    if Deleting(Step(e, s).pass) { NextDeleting(e, s); }
    GuardPassesOn(e, Arrive(e, Caller(s)), Step(e, s));
  }

  lemma DeleteKeepsGuard(e: Env, s: Sys)
    requires |s.world.past| > 0 && s.pass.Delete?
    requires Guarded(e, s) && SameLogs(s.world, Arrive(e, s.world))
    requires ReleasedOnlyAfterDelete(Finalizer(e), Arrive(e, s.world))
    requires Latest(Arrive(e, s.world)).deleting
    ensures Guarded(e, Step(e, s))
  {
    var a, w' := Arrive(e, s.world), Step(e, s).world;
    assert w'.deletes[..|a.deletes|] == a.deletes;
    if AnsweredDelete(a) {
      var i :| 0 <= i < |a.deletes| && a.deletes[i].answered && a.deletes[i].marked;
      assert w'.deletes[i] == a.deletes[i];
    }
    if Step(e, s).pass.RemoveFinalizer? { assert w'.deletes[|a.deletes|].answered; }
  }

  lemma CommitKeepsRelease(f: string, a: World, w': World)
    requires |a.past| > 0 && ReleasedOnlyAfterDelete(f, a)
    requires |w'.past| > 0 && w'.deletes == a.deletes && (w'.past == a.past || w'.past == a.past + [Latest(w')])
    requires AnsweredDelete(a) || w'.past == a.past || (f in Latest(a).finalizers ==> f in Latest(w').finalizers)
    ensures ReleasedOnlyAfterDelete(f, w')
  {
    if w'.past != a.past && EverHeld(w'.past, f) && f !in Latest(w').finalizers {
      HeldBefore(a.past, Latest(w'), f);
    }
  }

  /** An API write removes our finalizer only at the control point that a DELETE leads to. */
  lemma WriteCommits(e: Env, s: Sys)
    requires WellFormed(s.world) && WritesToApi(s.pass) && WellFormed(Arrive(e, s.world))
    requires CopyOf(s.pass).value in Arrive(e, s.world).past
    ensures var a, w' := Arrive(e, s.world), Step(e, s).world;
            && w'.deletes == a.deletes
            && (w'.past == a.past || w'.past == a.past + [Latest(w')])
            && (w'.past == a.past || s.pass.RemoveFinalizer? ||
                (Finalizer(e) in Latest(a).finalizers ==> Finalizer(e) in Latest(w').finalizers))
  {
    KnownVersion(Arrive(e, s.world), CopyOf(s.pass).value);
  }

  lemma WriteKeepsGuard(e: Env, s: Sys)
    requires WellFormed(s.world) && WritesToApi(s.pass) && WellFormed(Arrive(e, s.world))
    requires CopyOf(s.pass).value in Arrive(e, s.world).past
    requires Guarded(e, s) && SameLogs(s.world, Arrive(e, s.world))
    requires ReleasedOnlyAfterDelete(Finalizer(e), Arrive(e, s.world))
    ensures Guarded(e, Step(e, s))
  {
    WriteCommits(e, s);
    CommitKeepsRelease(Finalizer(e), Arrive(e, s.world), Step(e, s).world);
    if Deleting(Step(e, s).pass) { NextDeleting(e, s); }
    GuardPassesOn(e, Arrive(e, s.world), Step(e, s));
  }

  lemma StepKeepsGuard(e: Env, s: Sys)
    requires Inv(e.kind, s) && Guarded(e, s) && OnlyWeRemove(e)
    ensures Guarded(e, Step(e, s))
  {
    var w := Caller(s);
    ArriveExtends(e, w);
    InterfereKeepsFinalizer(Finalizer(e), w, e.tape(w.clock).before);
    if WritesToApi(s.pass) || s.pass.Delete? {
      StillKnown(w, Arrive(e, w), CopyOf(s.pass).value);
      if s.pass.Delete? {
        KnownVersion(Arrive(e, w), s.pass.copy);
        DeleteKeepsGuard(e, s);
      } else {
        WriteKeepsGuard(e, s);
      }
    } else {
      CallKeepsGuard(e, s);
    }
  }

  lemma RunKeepsGuard(e: Env, s: Sys, n: nat)
    requires Start(s) && Guarded(e, s) && OnlyWeRemove(e)
    ensures Guarded(e, At(e, s, n))
  {
    var holds := (t: Sys) => Inv(e.kind, t) && TenantsDoNotAdopt(e.kind, t.pass) && Guarded(e, t);
    forall t: Sys | |t.world.past| > 0 && holds(t)
      ensures holds(Step(e, t))
    {
      StepKeepsInv(e, t);
      StepKeepsGuard(e, t);
    }
    RunKeeps(e, s, holds, n);
  }

  /** One object incarnation, only the controller removes its finalizer, nothing sent before: an
      object that ever carried the finalizer is gone only after a DELETE was sent under the deletion
      mark and answered, and no DELETE is ever sent for an unmarked object. */
  lemma FinalizerSafety(e: Env, s: Sys, n: nat)
    requires Start(s) && s.world.live.Some? && |s.world.past| == 1 && s.world.deletes == []
    requires OnlyWeRemove(e)
    ensures var w := At(e, s, n).world;
            && (w.live.None? && EverHeld(w.past, Finalizer(e)) ==> AnsweredDelete(w))
            && (forall i :: 0 <= i < |w.deletes| ==> w.deletes[i].marked)
  {
    RunKeepsGuard(e, s, n);
    RunKeepsInv(e, s, n);
  }
}
