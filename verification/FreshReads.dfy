/** Steady runs without stale reads: agreement in all of them, what a pass compares and sends, and what
    becomes of an update that Pinot refused. */
module FreshReads {
  import opened Json
  import opened Protocol
  import opened Safety
  import opened Agreement

  // ------------------------------------------------------------------ steady runs

  /** The spec is edited only between passes and keeps the entity's name. */
  ghost predicate CalmAction(e: Env, name: string, betweenPasses: bool, a: EnvAction) {
    Abstains(name, a) && (a.EditSpec? ==> betweenPasses && NameOf(e, a.spec.json) == Some(name))
  }

  ghost predicate CalmActions(e: Env, name: string, betweenPasses: bool, acts: seq<EnvAction>) {
    forall j :: 0 <= j < |acts| ==> CalmAction(e, name, betweenPasses, acts[j])
  }

  /** The next call: no failed status patch, no lost effect, and Pinot does not refuse to create an
      entity that it stores with other content. Any other answer is allowed, and any stale read. */
  ghost predicate Steady(e: Env, name: string, s: Sys) {
    var t, pinot := e.tape(s.world.clock), s.world.pinot;
    && CalmActions(e, name, s.pass.Idle?, t.before)
    && (s.pass.PatchRead? ==> t.read.Fresh? || t.read.Stale?)
    && (s.pass.PatchWrite? ==> t.write.Done?)
    && (s.pass.Post? || s.pass.Put? ==> t.reply != Lost(true))
    && (s.pass.Post? && t.reply.Answer? && t.reply.code != 200 && name in pinot ==> pinot[name] == s.pass.copy.spec.json)
  }

  /** The next call is steady and reads the object as it is. */
  ghost predicate FreshCall(e: Env, name: string, s: Sys) {
    Steady(e, name, s) && (s.pass.Idle? || s.pass.PatchRead? ==> !e.tape(s.world.clock).read.Stale?)
  }

  ghost predicate FreshRun(e: Env, name: string, s: Sys)
    requires |s.world.past| > 0
  {
    forall n: nat :: FreshCall(e, name, At(e, s, n))
  }

  // ------------------------------------------------------------------ the invariant

  /** What a pass still has to record. */
  predicate Pending(k: Kind, name: string, w: World, note: Note) {
    name in w.pinot ==>
      (w.live.Some? ==> w.pinot[name] == w.live.value.spec.json) || (!k.Tenant? && note.message == UpdateFail(k))
  }

  /** The copy can only lag behind in version, and after a status patch in its status. */
  predicate CopyIsCurrent(w: World, p: Pass) {
    w.live.Some? && CopyOf(p).Some? ==>
      && CopyOf(p).value.spec == w.live.value.spec
      && (p.Lookup? || p.Get? || p.PatchWrite? ==> SameRecord(CopyOf(p).value, w.live.value))
  }

  predicate AtName(p: Pass, name: string) {
    match p
    case Get(_, n) => n == name
    case Post(_, n) => n == name
    case PatchRead(n, _, _) => n == name
    case PatchWrite(_, n, _, _) => n == name
    case Put(_, n, _) => n == name
    case _ => true
  }

  predicate Adopting(p: Pass) { (p.PatchRead? || p.PatchWrite?) && p.adopting }

  predicate Progress(k: Kind, name: string, w: World, p: Pass) {
    match p
    case PatchRead(_, note, adopting) => if adopting then name !in w.pinot else Pending(k, name, w, note)
    case PatchWrite(_, _, note, adopting) => if adopting then name !in w.pinot else Pending(k, name, w, note)
    case _ => Agree(k, name, w)
  }

  ghost predicate FreshTrack(e: Env, name: string, s: Sys) {
    && TenantsDoNotAdopt(e.kind, s.pass)
    && (s.world.live.Some? ==>
        && NameOf(e, s.world.live.value.spec.json) == Some(name)
        && CopyIsCurrent(s.world, s.pass)
        && AtName(s.pass, name)
        && Progress(e.kind, name, s.world, s.pass))
  }

  /** Calm interference leaves alone everything the invariant speaks about. */
  predicate Undisturbed(e: Env, name: string, betweenPasses: bool, w: World, w': World) {
    && Unchanged(name, w, w')
    && (w'.live.Some? ==>
        && (!betweenPasses ==> w'.live.value.spec == w.live.value.spec)
        && (NameOf(e, w.live.value.spec.json) == Some(name) ==>
            NameOf(e, w'.live.value.spec.json) == Some(name)))
  }

  lemma {:induction false} CalmInterference(e: Env, name: string, betweenPasses: bool, w: World, acts: seq<EnvAction>)
    requires |w.past| > 0 && CalmActions(e, name, betweenPasses, acts)
    ensures Undisturbed(e, name, betweenPasses, w, InterfereAll(w, acts))
    decreases |acts|
  {
    if acts != [] {
      var w1 := Interfere(w, acts[0]);
      assert CalmAction(e, name, betweenPasses, acts[0]);
      assert Undisturbed(e, name, betweenPasses, w, w1);
      CalmInterference(e, name, betweenPasses, w1, acts[1..]);
    }
  }

  lemma ArriveKeepsFresh(e: Env, name: string, s: Sys)
    requires |s.world.past| > 0 && FreshTrack(e, name, s) && FreshCall(e, name, s)
    ensures Undisturbed(e, name, s.pass.Idle?, s.world, Arrive(e, Caller(s)))
    ensures FreshTrack(e, name, Sys(Arrive(e, Caller(s)), s.pass))
  {
    CalmInterference(e, name, s.pass.Idle?, Caller(s), e.tape(s.world.clock).before);
  }

  /** Fresh reads do no harm. */
  lemma FreshIsHarmless(e: Env, name: string, s: Sys)
    requires |s.world.past| > 0 && Lawful(e.codec) && FreshTrack(e, name, s) && FreshCall(e, name, s)
    ensures Harmless(e, name, s)
  {
    ArriveKeepsFresh(e, name, s);
    var a := Arrive(e, Caller(s));
    if a.live.Some? { NamedIsNotEmpty(e, a.live.value.spec.json); }
  }

  ghost predicate ReadyToCall(e: Env, name: string, s: Sys) {
    && |s.world.past| > 0 && Lawful(e.codec) && FreshCall(e, name, s)
    && Undisturbed(e, name, s.pass.Idle?, s.world, Arrive(e, Caller(s)))
    && FreshTrack(e, name, Sys(Arrive(e, Caller(s)), s.pass))
  }

  lemma GetKeepsFresh(e: Env, name: string, s: Sys)
    requires ReadyToCall(e, name, s) && s.pass.Get?
    ensures FreshTrack(e, name, Step(e, s))
  {
  }

  lemma SendKeepsFresh(e: Env, name: string, s: Sys)
    requires ReadyToCall(e, name, s) && (s.pass.Post? || s.pass.Put?)
    ensures FreshTrack(e, name, Step(e, s))
  {
  }

  lemma PatchKeepsFresh(e: Env, name: string, s: Sys)
    requires ReadyToCall(e, name, s) && s.pass.PatchWrite?
    ensures FreshTrack(e, name, Step(e, s))
  {
    var a := Arrive(e, s.world);
    if a.live.Some? { NamedIsNotEmpty(e, a.live.value.spec.json); }
  }

  lemma ReadKeepsFresh(e: Env, name: string, s: Sys)
    requires ReadyToCall(e, name, s) && (s.pass.Idle? || s.pass.Lookup? || s.pass.PatchRead?)
    ensures FreshTrack(e, name, Step(e, s))
  {
  }

  lemma DeleteKeepsFresh(e: Env, name: string, s: Sys)
    requires ReadyToCall(e, name, s) && (s.pass.LookupAgain? || s.pass.Delete?)
    ensures FreshTrack(e, name, Step(e, s))
  {
  }

  lemma UpdateKeepsFresh(e: Env, name: string, s: Sys)
    requires ReadyToCall(e, name, s) && (s.pass.AddFinalizer? || s.pass.RemoveFinalizer?)
    ensures FreshTrack(e, name, Step(e, s))
  {
  }

  lemma StepKeepsFresh(e: Env, name: string, s: Sys)
    requires Lawful(e.codec) && |s.world.past| > 0 && FreshTrack(e, name, s) && FreshCall(e, name, s)
    ensures FreshTrack(e, name, Step(e, s))
  {
    ArriveKeepsFresh(e, name, s);
    match s.pass
    case Get(_, _) => GetKeepsFresh(e, name, s);
    case Post(_, _) => SendKeepsFresh(e, name, s);
    case Put(_, _, _) => SendKeepsFresh(e, name, s);
    case PatchWrite(_, _, _, _) => PatchKeepsFresh(e, name, s);
    case LookupAgain(_) => DeleteKeepsFresh(e, name, s);
    case Delete(_, _) => DeleteKeepsFresh(e, name, s);
    case AddFinalizer(_) => UpdateKeepsFresh(e, name, s);
    case RemoveFinalizer(_) => UpdateKeepsFresh(e, name, s);
    case _ => ReadKeepsFresh(e, name, s);
  }

  // ------------------------------------------------------------------ agreement

  /** A fresh object whose entity does not exist yet. */
  predicate FreshObject(e: Env, name: string, s: Sys) {
    && s.pass.Idle?
    && s.world.live.Some?
    && NameOf(e, s.world.live.value.spec.json) == Some(name)
    && s.world.live.value.status.currentJson == ""
    && name !in s.world.pinot
  }

  lemma {:induction false} RunKeepsFresh(e: Env, name: string, s: Sys, n: nat)
    requires Lawful(e.codec) && |s.world.past| > 0 && FreshObject(e, name, s) && FreshRun(e, name, s)
    ensures FreshTrack(e, name, At(e, s, n))
  {
    if n > 0 {
      RunKeepsFresh(e, name, s, n - 1);
      assert FreshCall(e, name, At(e, s, n - 1));
      StepKeepsFresh(e, name, At(e, s, n - 1));
    }
  }

  lemma FreshCallIsHarmless(e: Env, name: string, s: Sys, m: nat)
    requires Lawful(e.codec) && |s.world.past| > 0 && FreshObject(e, name, s) && FreshRun(e, name, s)
    ensures HarmlessAt(e, name, s, m)
  {
    RunKeepsFresh(e, name, s, m);
    assert FreshCall(e, name, At(e, s, m));
    FreshIsHarmless(e, name, At(e, s, m));
  }

  /** From a fresh object every steady run without stale reads is harmless throughout. */
  lemma FreshRunIsHarmless(e: Env, name: string, s: Sys, n: nat)
    requires Lawful(e.codec) && |s.world.past| > 0 && FreshObject(e, name, s) && FreshRun(e, name, s)
    ensures HarmlessUpTo(e, name, s, n)
  {
    forall m: nat | m < n
      ensures HarmlessAt(e, name, s, m)
    {
      FreshCallIsHarmless(e, name, s, m);
    }
    HarmlessAll(e, name, s, n);
  }

  /** Schemas and tables: from a fresh object, in every steady run without stale reads, an entity that
      exists is recorded exactly between passes, or the last update is on record as failed. */
  lemma RecordAgreesWithPinot(e: Env, name: string, s: Sys, n: nat)
    requires Lawful(e.codec) && |s.world.past| > 0 && FreshObject(e, name, s) && FreshRun(e, name, s)
    requires At(e, s, n).pass.Idle?
    ensures var w := At(e, s, n).world;
            w.live.Some? && name in w.pinot ==>
              w.live.value.status.message == UpdateFail(e.kind) || w.live.value.status.currentJson == w.pinot[name]
  {
    RunKeepsFresh(e, name, s, n);
  }

  /** Tenants: no exception, because a refused update writes no status. */
  lemma TenantRecordIsExact(e: Env, name: string, s: Sys, n: nat)
    requires Lawful(e.codec) && |s.world.past| > 0 && FreshObject(e, name, s) && FreshRun(e, name, s)
    requires e.kind.Tenant? && At(e, s, n).pass.Idle?
    ensures var w := At(e, s, n).world;
            w.live.Some? && name in w.pinot ==> w.live.value.status.currentJson == w.pinot[name]
  {
    RunKeepsFresh(e, name, s, n);
  }

  // ------------------------------------------------------------------ when an entity is sent again

  lemma ComparePuts(e: Env, name: string, s: Sys)
    requires |s.world.past| > 0 && Lawful(e.codec) && FreshTrack(e, name, s) && FreshCall(e, name, s)
    requires s.pass.Get? && ReportsPresent(e.kind, ReplyOf(e, s.world)) && Step(e, s).world.live.Some?
    ensures s.world.live.Some?
    ensures var w := Step(e, s).world;
            && SameRecord(w.live.value, s.world.live.value) && w.live.value.spec == s.world.live.value.spec
            && (Step(e, s).pass.Put? <==>
                IsEqualJson(e.codec, w.live.value.status.currentJson, w.live.value.spec.json) == Some(false))
  {
    ArriveKeepsFresh(e, name, s);
  }

  /** When Pinot reports an existing entity, the pass goes on to a PUT exactly if what is compared
      differs from the spec: what Pinot stores, or (schemas and tables) the JSON of the failed update
      on record. So a tenant's refused update is sent again on every later pass. */
  lemma PutExactlyOnDrift(e: Env, name: string, s: Sys, n: nat)
    requires Lawful(e.codec) && |s.world.past| > 0 && FreshObject(e, name, s) && FreshRun(e, name, s)
    requires At(e, s, n).pass.Get? && ReportsPresent(e.kind, ReplyOf(e, At(e, s, n).world))
    requires var w := At(e, s, n + 1).world; w.live.Some? && name in w.pinot
    ensures var w := At(e, s, n + 1).world;
            var st := w.live.value.status;
            var compared := if !e.kind.Tenant? && st.message == UpdateFail(e.kind) then st.currentJson else w.pinot[name];
            At(e, s, n + 1).pass.Put? <==> IsEqualJson(e.codec, compared, w.live.value.spec.json) == Some(false)
  {
    RunKeepsFresh(e, name, s, n);
    assert FreshCall(e, name, At(e, s, n));
    ArriveKeepsFresh(e, name, At(e, s, n));
    ComparePuts(e, name, At(e, s, n));
  }

  predicate Refuses(e: Env, s: Sys) {
    var r := ReplyOf(e, s.world);
    s.pass.Put? && r.Answer? && r.code != 200
  }

  /** Once Pinot refuses an update of a schema or table and the refusal is recorded, the wanted JSON
      counts as current although Pinot still stores the old one. */
  lemma RefusedUpdateCountsAsCurrent(e: Env, name: string, s: Sys, n: nat)
    requires Lawful(e.codec) && |s.world.past| > 0 && FreshObject(e, name, s) && FreshRun(e, name, s)
    requires !e.kind.Tenant? && Refuses(e, At(e, s, n))
    requires At(e, s, n + 3).world.live.Some?
    ensures var w, w' := At(e, s, n).world, At(e, s, n + 3).world;
            && w'.live.value.status.currentJson == w'.live.value.spec.json
            && w'.live.value.status.message == UpdateFail(e.kind)
            && SameEntry(name, w, w')
  {
    RefusalIsNoted(e, name, s, n);
    LiveBefore(e, s, n + 2);
    NoteIsRead(e, name, s, n + 1);
    NoteIsWritten(e, name, s, n + 2);
  }

  lemma RefusalIsNoted(e: Env, name: string, s: Sys, n: nat)
    requires Lawful(e.codec) && |s.world.past| > 0 && FreshObject(e, name, s) && FreshRun(e, name, s)
    requires !e.kind.Tenant? && Refuses(e, At(e, s, n))
    ensures At(e, s, n + 1).pass.PatchRead? && At(e, s, n + 1).pass.note.message == UpdateFail(e.kind)
    ensures SameEntry(name, At(e, s, n).world, At(e, s, n + 1).world)
  {
    var t := At(e, s, n);
    RunKeepsFresh(e, name, s, n);
    assert FreshCall(e, name, t);
    ArriveKeepsFresh(e, name, t);
    assert At(e, s, n + 1) == Step(e, t);
  }

  lemma NoteIsRead(e: Env, name: string, s: Sys, n: nat)
    requires Lawful(e.codec) && |s.world.past| > 0 && FreshObject(e, name, s) && FreshRun(e, name, s)
    requires At(e, s, n).pass.PatchRead? && At(e, s, n + 1).world.live.Some?
    ensures At(e, s, n + 1).pass.PatchWrite? && At(e, s, n + 1).pass.note == At(e, s, n).pass.note
    ensures SameEntry(name, At(e, s, n).world, At(e, s, n + 1).world)
  {
    var t := At(e, s, n);
    RunKeepsFresh(e, name, s, n);
    assert FreshCall(e, name, t);
    ArriveKeepsFresh(e, name, t);
    assert At(e, s, n + 1) == Step(e, t);
  }

  lemma NoteIsWritten(e: Env, name: string, s: Sys, n: nat)
    requires Lawful(e.codec) && |s.world.past| > 0 && FreshObject(e, name, s) && FreshRun(e, name, s)
    requires At(e, s, n).pass.PatchWrite? && At(e, s, n + 1).world.live.Some?
    ensures var o := At(e, s, n + 1).world.live.value;
            o.status.currentJson == o.spec.json && o.status.message == At(e, s, n).pass.note.message
    ensures SameEntry(name, At(e, s, n).world, At(e, s, n + 1).world)
  {
    var t := At(e, s, n);
    RunKeepsFresh(e, name, s, n);
    assert FreshCall(e, name, t);
    ArriveKeepsFresh(e, name, t);
    assert At(e, s, n + 1) == Step(e, t);
    PatchRecords(e, t);
  }

  lemma PatchRecords(e: Env, s: Sys)
    requires |s.world.past| > 0 && s.pass.PatchWrite? && e.tape(s.world.clock).write.Done?
    requires Step(e, s).world.live.Some?
    requires Arrive(e, s.world).live.Some? ==> SameRecord(s.pass.copy, Arrive(e, s.world).live.value)
    requires Arrive(e, s.world).live.Some? ==> s.pass.copy.spec == Arrive(e, s.world).live.value.spec
    ensures var o := Step(e, s).world.live.value;
            o.status.currentJson == o.spec.json && o.status.message == s.pass.note.message
  {
  }

  // ------------------------------------------------------------------ after a refused update

  /** The spec still wants the JSON `refused`, up to formatting. */
  predicate StillWants(e: Env, refused: string, s: Sys) {
    s.world.live.Some? ==> SameJson(e.codec, s.world.live.value.spec.json, refused)
  }

  /** The refused JSON is on record or about to be recorded, and no update is under way. */
  predicate GaveUp(e: Env, refused: string, s: Sys) {
    s.world.live.Some? ==>
      && !s.pass.Put? && !Adopting(s.pass)
      && (s.pass.PatchRead? || s.pass.PatchWrite? ||
          SameJson(e.codec, s.world.live.value.status.currentJson, refused))
  }

  lemma CompareStaysGivenUp(e: Env, name: string, s: Sys, refused: string)
    requires Lawful(e.codec) && |s.world.past| > 0 && FreshTrack(e, name, s) && FreshCall(e, name, s) && s.pass.Get?
    requires GaveUp(e, refused, s) && StillWants(e, refused, Step(e, s))
    ensures GaveUp(e, refused, Step(e, s))
  {
    ArriveKeepsFresh(e, name, s);
  }

  lemma StampStaysGivenUp(e: Env, name: string, s: Sys, refused: string)
    requires Lawful(e.codec) && |s.world.past| > 0 && FreshTrack(e, name, s) && FreshCall(e, name, s) && s.pass.PatchWrite?
    requires GaveUp(e, refused, s) && StillWants(e, refused, Step(e, s))
    ensures GaveUp(e, refused, Step(e, s))
  {
    ArriveKeepsFresh(e, name, s);
    if Step(e, s).world.live.Some? { PatchRecords(e, s); }
  }

  lemma OtherStaysGivenUp(e: Env, name: string, s: Sys, refused: string)
    requires |s.world.past| > 0 && FreshCall(e, name, s) && !s.pass.Get? && !s.pass.PatchWrite?
    requires Undisturbed(e, name, s.pass.Idle?, s.world, Arrive(e, Caller(s)))
    requires GaveUp(e, refused, s)
    ensures GaveUp(e, refused, Step(e, s))
  {
  }

  lemma StepStaysGivenUp(e: Env, name: string, s: Sys, refused: string)
    requires Lawful(e.codec) && |s.world.past| > 0 && FreshTrack(e, name, s) && FreshCall(e, name, s)
    requires GaveUp(e, refused, s) && StillWants(e, refused, Step(e, s))
    ensures GaveUp(e, refused, Step(e, s))
  {
    if s.pass.Get? {
      CompareStaysGivenUp(e, name, s, refused);
    } else if s.pass.PatchWrite? {
      StampStaysGivenUp(e, name, s, refused);
    } else {
      ArriveKeepsFresh(e, name, s);
      OtherStaysGivenUp(e, name, s, refused);
    }
  }

  /** One call of a fresh run, with everything known before it. */
  lemma FreshAt(e: Env, name: string, s: Sys, n: nat)
    requires Lawful(e.codec) && |s.world.past| > 0 && FreshObject(e, name, s) && FreshRun(e, name, s)
    ensures FreshTrack(e, name, At(e, s, n)) && FreshCall(e, name, At(e, s, n))
    ensures At(e, s, n + 1) == Step(e, At(e, s, n))
  {
    RunKeepsFresh(e, name, s, n);
  }

  lemma NextStaysGivenUp(e: Env, name: string, s: Sys, k: nat, refused: string)
    requires Lawful(e.codec) && |s.world.past| > 0 && FreshObject(e, name, s) && FreshRun(e, name, s)
    requires GaveUp(e, refused, At(e, s, k)) && StillWants(e, refused, At(e, s, k + 1))
    ensures GaveUp(e, refused, At(e, s, k + 1))
  {
    FreshAt(e, name, s, k);
    StepStaysGivenUp(e, name, At(e, s, k), refused);
  }

  lemma RefusalGivesUp(e: Env, s: Sys, n: nat)
    requires |s.world.past| > 0 && !e.kind.Tenant? && Refuses(e, At(e, s, n))
    ensures GaveUp(e, At(e, s, n).pass.copy.spec.json, At(e, s, n + 1))
  {
    var t := At(e, s, n);
    assert At(e, s, n + 1) == Step(e, t) && Step(e, t).pass.PatchRead?;
  }

  /** The spec wants this JSON at every moment after call `n` up to call `m`. */
  ghost predicate KeepsWanting(e: Env, s: Sys, refused: string, n: nat, m: nat)
    requires |s.world.past| > 0
  {
    forall k: nat | n < k <= m :: StillWants(e, refused, At(e, s, k))
  }

  lemma {:induction false} StaysGivenUp(e: Env, name: string, s: Sys, refused: string, n: nat, m: nat)
    requires Lawful(e.codec) && |s.world.past| > 0 && FreshObject(e, name, s) && FreshRun(e, name, s)
    requires n < m && GaveUp(e, refused, At(e, s, n + 1)) && KeepsWanting(e, s, refused, n, m)
    ensures GaveUp(e, refused, At(e, s, m))
    decreases m
  {
    if m > n + 1 {
      var k: nat := m - 1;
      StaysGivenUp(e, name, s, refused, n, k);
      NextStaysGivenUp(e, name, s, k, refused);
    }
  }

  /** A schema's or table's refused update is not sent again by any later pass, as long as the spec
      keeps wanting that JSON. */
  lemma RefusedUpdateIsNotRepeated(e: Env, name: string, s: Sys, n: nat, m: nat)
    requires Lawful(e.codec) && |s.world.past| > 0 && FreshObject(e, name, s) && FreshRun(e, name, s)
    requires !e.kind.Tenant? && Refuses(e, At(e, s, n)) && n < m && At(e, s, m).world.live.Some?
    requires KeepsWanting(e, s, At(e, s, n).pass.copy.spec.json, n, m)
    ensures !At(e, s, m).pass.Put?
  {
    RefusalGivesUp(e, s, n);
    StaysGivenUp(e, name, s, At(e, s, n).pass.copy.spec.json, n, m);
  }

  /** What ends the silence: the spec wanted the refused JSON until a pass began at call `m`, with or
      without an edit just before, and that pass finds the entity. It sends a PUT exactly if the spec
      now differs from the JSON that was refused. */
  lemma RefusedUpdateResumesExactly(e: Env, name: string, s: Sys, n: nat, m: nat)
    requires Lawful(e.codec) && |s.world.past| > 0 && FreshObject(e, name, s) && FreshRun(e, name, s)
    requires !e.kind.Tenant? && Refuses(e, At(e, s, n)) && n < m && At(e, s, m).pass.Idle?
    requires KeepsWanting(e, s, At(e, s, n).pass.copy.spec.json, n, m)
    requires At(e, s, m + 2).pass.Get? && ReportsPresent(e.kind, ReplyOf(e, At(e, s, m + 2).world))
    requires At(e, s, m + 3).world.live.Some?
    ensures At(e, s, m + 3).pass.Put? <==>
            IsEqualJson(e.codec, At(e, s, n).pass.copy.spec.json, At(e, s, m + 3).world.live.value.spec.json) == Some(false)
  {
    RefusalGivesUp(e, s, n);
    StaysGivenUp(e, name, s, At(e, s, n).pass.copy.spec.json, n, m);
    NextCompare(e, name, s, At(e, s, n).pass.copy.spec.json, m);
  }

  lemma NextCompare(e: Env, name: string, s: Sys, refused: string, m: nat)
    requires Lawful(e.codec) && |s.world.past| > 0 && FreshObject(e, name, s) && FreshRun(e, name, s)
    requires At(e, s, m).pass.Idle? && GaveUp(e, refused, At(e, s, m))
    requires At(e, s, m + 2).pass.Get? && ReportsPresent(e.kind, ReplyOf(e, At(e, s, m + 2).world))
    requires At(e, s, m + 3).world.live.Some?
    ensures At(e, s, m + 3).pass.Put? <==>
            IsEqualJson(e.codec, refused, At(e, s, m + 3).world.live.value.spec.json) == Some(false)
  {
    CompareAt(e, name, s, m + 2);
    RecordSurvivesLookup(e, name, s, m);
    SameCompares(e.codec, At(e, s, m).world.live.value.status.currentJson, refused,
                 At(e, s, m + 3).world.live.value.spec.json);
  }

  lemma SameCompares(c: Codec, a: string, b: string, x: string)
    requires SameJson(c, a, b)
    ensures IsEqualJson(c, a, x) == IsEqualJson(c, b, x)
  {
  }

  lemma CompareAt(e: Env, name: string, s: Sys, k: nat)
    requires Lawful(e.codec) && |s.world.past| > 0 && FreshObject(e, name, s) && FreshRun(e, name, s)
    requires At(e, s, k).pass.Get? && ReportsPresent(e.kind, ReplyOf(e, At(e, s, k).world))
    requires At(e, s, k + 1).world.live.Some?
    ensures At(e, s, k).world.live.Some?
    ensures At(e, s, k + 1).pass.Put? <==>
            IsEqualJson(e.codec, At(e, s, k).world.live.value.status.currentJson,
                        At(e, s, k + 1).world.live.value.spec.json) == Some(false)
  {
    RunKeepsFresh(e, name, s, k);
    assert FreshCall(e, name, At(e, s, k));
    ComparePuts(e, name, At(e, s, k));
  }

  lemma RecordSurvivesLookup(e: Env, name: string, s: Sys, m: nat)
    requires Lawful(e.codec) && |s.world.past| > 0 && FreshObject(e, name, s) && FreshRun(e, name, s)
    requires At(e, s, m).pass.Idle? && At(e, s, m + 2).pass.Get? && At(e, s, m + 2).world.live.Some?
    ensures At(e, s, m).world.live.Some?
    ensures SameRecord(At(e, s, m + 2).world.live.value, At(e, s, m).world.live.value)
  {
    var s0, s1, s2 := At(e, s, m), At(e, s, m + 1), At(e, s, m + 2);
    RunKeepsFresh(e, name, s, m);
    RunKeepsFresh(e, name, s, m + 1);
    assert FreshCall(e, name, s0) && FreshCall(e, name, s1);
    ArriveKeepsFresh(e, name, s0);
    assert s1 == Step(e, s0);
    assert s1.pass.Lookup? by { assert s2 == Step(e, s1); }
    ArriveKeepsFresh(e, name, s1);
    assert s2 == Step(e, s1);
  }
}
