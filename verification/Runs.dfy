/** Runs from a fresh object in which a promise is broken, for every decoder and every two documents
    of one name, and documents for which the decoder is the one of `JsonText`. */
module Runs {
  import opened Json
  import opened Protocol
  import opened Safety
  import opened Agreement
  import opened FreshReads
  import opened ReloadLog

  // ------------------------------------------------------------------ the beginning all runs share

  /** Two JSON texts for the same entity that differ as documents. */
  ghost predicate Variants(c: Codec, k: Kind, name: string, a: string, b: string) {
    && Lawful(c)
    && GetValueFromJson(c, a, NameKey(k)) == Some(name)
    && GetValueFromJson(c, b, NameKey(k)) == Some(name)
    && IsEqualJson(c, a, b) == Some(false)
  }

  function SpecOf(json: string): Spec { Spec("pinot", json, true) }

  /** Nobody interferes and everything succeeds; the body says that the entity exists. */
  function Plain(i: nat): Turn { Turn([], Fresh, Done, Answer(200, "ok"), i + 1) }

  /** Pinot reports an absent entity, in the way of each controller. */
  function NotFound(i: nat): Turn { Plain(i).(reply := Answer(404, "{}")) }

  function NewObject(k: Kind, a: string): CR {
    CR(SpecOf(a), Status("", "", "", "", "", 0, None), [FinalizerOf(k)], false, 1)
  }

  function Beginning(k: Kind, a: string): Sys {
    Sys(World(Some(NewObject(k, a)), [NewObject(k, a)], map[], NOTHING, [], 0), Idle)
  }

  function OkNote(message: string): Note { Note(message, "ok", message) }

  function Created(k: Kind, a: string): CR {
    NewObject(k, a).(status := Stamp(k, NewObject(k, a), OkNote(CreateSuccess(k)), 6), version := 2)
  }

  ghost predicate CreatesFirst(e: Env) {
    forall i: nat | i < 6 :: e.tape(i) == if i == 2 then NotFound(i) else Plain(i)
  }

  lemma Starts(e: Env, name: string, a: string)
    requires NameOf(e, a) == Some(name)
    ensures Start(Beginning(e.kind, a)) && FreshObject(e, name, Beginning(e.kind, a))
  {
  }

  lemma Unrolled(e: Env, s: Sys, n: nat)
    requires |s.world.past| > 0
    ensures At(e, s, n + 1) == Step(e, At(e, s, n))
  {
  }

  /** A call before which nobody acts. */
  lemma NobodyActs(e: Env, w: World)
    requires |w.past| > 0 && e.tape(w.clock).before == []
    ensures Arrive(e, w) == w.(clock := w.clock + 1)
  {
  }

  lemma OneAction(w: World, a: EnvAction)
    requires |w.past| > 0
    ensures InterfereAll(w, [a]) == Interfere(w, a)
  {
    assert [a][1..] == [];
  }

  lemma TwoActions(w: World, a: EnvAction, b: EnvAction)
    requires |w.past| > 0 && |Interfere(w, a).past| > 0
    ensures InterfereAll(w, [a, b]) == Interfere(Interfere(w, a), b)
  {
    assert [a, b][1..] == [b];
    OneAction(Interfere(w, a), b);
  }

  lemma CreateReads(e: Env, name: string, a: string)
    requires CreatesFirst(e) && NameOf(e, a) == Some(name)
    ensures At(e, Beginning(e.kind, a), 2) == Sys(Beginning(e.kind, a).world.(clock := 2), Get(NewObject(e.kind, a), name))
  {
    var s, o := Beginning(e.kind, a), NewObject(e.kind, a);
    Unrolled(e, s, 0);
    assert At(e, s, 1) == Sys(s.world.(clock := 1), Lookup(o));
    Unrolled(e, s, 1);
  }

  lemma CreateSends(e: Env, name: string, a: string)
    requires CreatesFirst(e) && NameOf(e, a) == Some(name)
    ensures var o := NewObject(e.kind, a);
            At(e, Beginning(e.kind, a), 4) ==
            Sys(World(Some(o), [o], map[name := a], Tally(0, 0, 1, 0, 0), [], 4),
                PatchRead(name, OkNote(CreateSuccess(e.kind)), false))
  {
    var s, o := Beginning(e.kind, a), NewObject(e.kind, a);
    CreateReads(e, name, a);
    Unrolled(e, s, 2);
    assert At(e, s, 3) == Sys(s.world.(clock := 3), Post(o, name));
    Unrolled(e, s, 3);
    assert map[][name := a] == map[name := a];
  }

  /** The first pass creates the entity and records it. */
  lemma CreateRun(e: Env, name: string, a: string)
    requires CreatesFirst(e) && NameOf(e, a) == Some(name)
    ensures At(e, Beginning(e.kind, a), 6) ==
            Sys(World(Some(Created(e.kind, a)), [NewObject(e.kind, a), Created(e.kind, a)], map[name := a],
                      Tally(1, 0, 1, 0, 0), [], 6), Idle)
  {
    var s, o := Beginning(e.kind, a), NewObject(e.kind, a);
    CreateSends(e, name, a);
    var w := At(e, s, 4).world;
    Unrolled(e, s, 4);
    assert At(e, s, 5) == Sys(w.(clock := 5), PatchWrite(o, name, OkNote(CreateSuccess(e.kind)), false));
    Unrolled(e, s, 5);
    assert [o] + [Created(e.kind, a)] == [o, Created(e.kind, a)];
  }

  lemma {:induction false} ClockCounts(e: Env, s: Sys, n: nat)
    requires |s.world.past| > 0 && s.world.clock == 0
    ensures At(e, s, n).world.clock == n
  {
    if n > 0 { ClockCounts(e, s, n - 1); }
  }

  // ------------------------------------------------------------------ an outdated first read

  /** Before the second pass the spec goes from `a` to `b` and back; that pass first reads the version in
      between, and a lagging cache returns it again inside `PatchStatus`. */
  function StaleTurn(a: string, b: string, lagging: bool, i: nat): Turn {
    if i == 2 then NotFound(i)
    else if i == 10 && lagging then Plain(i).(read := Stale(2))
    else if i == 6 then Plain(i).(before := [EditSpec(SpecOf(b)), EditSpec(SpecOf(a))], read := Stale(2))
    else Plain(i)
  }

  function StaleEnv(k: Kind, c: Codec, a: string, b: string, lagging: bool): Env {
    Env(k, c, (i: nat) => StaleTurn(a, b, lagging, i))
  }

  function Outdated(k: Kind, a: string, b: string): CR { Created(k, a).(spec := SpecOf(b), version := 3) }

  function Reverted(k: Kind, a: string): CR { Created(k, a).(version := 4) }

  function StaleWorld(k: Kind, a: string, b: string, stored: string, name: string, puts: nat, clock: nat): World {
    World(Some(Reverted(k, a)), [NewObject(k, a), Created(k, a), Outdated(k, a, b), Reverted(k, a)],
          map[name := stored], NOTHING.(puts := puts), [], clock)
  }

  /** The world between the first two passes. */
  function CreatedWorld(k: Kind, a: string, name: string): World {
    World(Some(Created(k, a)), [NewObject(k, a), Created(k, a)], map[name := a], NOTHING, [], 6)
  }

  lemma StaleEdits(k: Kind, a: string, b: string, name: string)
    ensures InterfereAll(CreatedWorld(k, a, name), [EditSpec(SpecOf(b)), EditSpec(SpecOf(a))])
         == StaleWorld(k, a, b, a, name, 0, 6)
  {
    var w := CreatedWorld(k, a, name);
    TwoActions(w, EditSpec(SpecOf(b)), EditSpec(SpecOf(a)));
    var w1 := Interfere(w, EditSpec(SpecOf(b)));
    assert w1.past == [NewObject(k, a), Created(k, a), Outdated(k, a, b)];
    assert w1.live == Some(Outdated(k, a, b));
  }

  lemma StaleStart(k: Kind, c: Codec, name: string, a: string, b: string, lagging: bool)
    requires Variants(c, k, name, a, b)
    ensures At(StaleEnv(k, c, a, b, lagging), Beginning(k, a), 7) ==
            Sys(StaleWorld(k, a, b, a, name, 0, 7), Lookup(Outdated(k, a, b)))
  {
    var e, s := StaleEnv(k, c, a, b, lagging), Beginning(k, a);
    CreateRun(e, name, a);
    Unrolled(e, s, 6);
    StaleEdits(k, a, b, name);
    assert Arrive(e, CreatedWorld(k, a, name)) == StaleWorld(k, a, b, a, name, 0, 7);
    assert Step(e, Sys(CreatedWorld(k, a, name).(tally := Tally(1, 0, 1, 0, 0)), Idle))
        == Sys(StaleWorld(k, a, b, a, name, 0, 7), Lookup(Outdated(k, a, b)));
  }

  lemma StaleCompare(k: Kind, c: Codec, name: string, a: string, b: string, lagging: bool)
    requires Variants(c, k, name, a, b)
    ensures At(StaleEnv(k, c, a, b, lagging), Beginning(k, a), 9) ==
            Sys(StaleWorld(k, a, b, a, name, 0, 9), Put(Outdated(k, a, b), name, "ok"))
  {
    var e, s, o := StaleEnv(k, c, a, b, lagging), Beginning(k, a), Outdated(k, a, b);
    StaleStart(k, c, name, a, b, lagging);
    NamedIsNotEmpty(e, a);
    Unrolled(e, s, 7);
    assert At(e, s, 8) == Sys(StaleWorld(k, a, b, a, name, 0, 8), Get(o, name));
    Unrolled(e, s, 8);
  }

  lemma StaleSend(k: Kind, c: Codec, name: string, a: string, b: string, lagging: bool)
    requires Variants(c, k, name, a, b)
    ensures At(StaleEnv(k, c, a, b, lagging), Beginning(k, a), 10) ==
            Sys(StaleWorld(k, a, b, b, name, 1, 10), PatchRead(name, OkNote(UpdateSuccess(k)), false))
  {
    var e, s := StaleEnv(k, c, a, b, lagging), Beginning(k, a);
    StaleCompare(k, c, name, a, b, lagging);
    Unrolled(e, s, 9);
    assert map[name := a][name := b] == map[name := b];
  }

  lemma StaleRecord(k: Kind, c: Codec, name: string, a: string, b: string)
    requires Variants(c, k, name, a, b)
    ensures At(StaleEnv(k, c, a, b, false), Beginning(k, a), 11) ==
            Sys(StaleWorld(k, a, b, b, name, 1, 11), PatchWrite(Reverted(k, a), name, OkNote(UpdateSuccess(k)), false))
  {
    var e, s := StaleEnv(k, c, a, b, false), Beginning(k, a);
    StaleSend(k, c, name, a, b, false);
    Unrolled(e, s, 10);
    NobodyActs(e, StaleWorld(k, a, b, b, name, 1, 10));
  }

  lemma StaleEnd(k: Kind, c: Codec, name: string, a: string, b: string)
    requires Variants(c, k, name, a, b)
    ensures var r := At(StaleEnv(k, c, a, b, false), Beginning(k, a), 12);
            && r.pass.Idle? && r.world.live.Some? && r.world.pinot == map[name := b]
            && r.world.live.value.spec.json == a && r.world.live.value.status.currentJson == a
            && r.world.live.value.status.message == UpdateSuccess(k)
  {
    var e, s := StaleEnv(k, c, a, b, false), Beginning(k, a);
    StaleRecord(k, c, name, a, b);
    Unrolled(e, s, 11);
    NobodyActs(e, StaleWorld(k, a, b, b, name, 1, 11));
  }

  /** Every call of the run is steady: edits only between passes and under the same name, no failed
      write, no lost reply, no refusal. */
  lemma StaleRunIsSteady(k: Kind, c: Codec, name: string, a: string, b: string, lagging: bool, n: nat)
    requires Variants(c, k, name, a, b)
    ensures var e, t := StaleEnv(k, c, a, b, lagging), At(StaleEnv(k, c, a, b, lagging), Beginning(k, a), n);
            Steady(e, name, t) && (n != 6 && !lagging ==> e.tape(t.world.clock).read.Fresh?)
  {
    var e, s := StaleEnv(k, c, a, b, lagging), Beginning(k, a);
    ClockCounts(e, s, n);
    if n == 6 {
      CreateRun(e, name, a);
      BetweenPasses(e, name, a, b);
    } else if n == 2 {
      CreateReads(e, name, a);
    }
    TurnIsSteady(e, name, At(e, s, n));
  }

  lemma BetweenPasses(e: Env, name: string, a: string, b: string)
    requires NameOf(e, a) == Some(name) && NameOf(e, b) == Some(name)
    ensures CalmActions(e, name, true, [EditSpec(SpecOf(b)), EditSpec(SpecOf(a))])
    ensures CalmActions(e, name, true, [EditSpec(SpecOf(b))])
  {
  }

  lemma TurnIsSteady(e: Env, name: string, s: Sys)
    requires var t := e.tape(s.world.clock);
             && CalmActions(e, name, s.pass.Idle?, t.before)
             && (t.read.Fresh? || t.read.Stale?) && t.write.Done? && t.reply.Answer?
             && (s.pass.Post? ==> t.reply.code == 200)
    ensures Steady(e, name, s)
  {
  }

  /** Stale reads can do harm: from a fresh object, steadily, with one outdated read at the start of the
      second pass, Pinot ends up with JSON that is neither wanted nor on record, under a message of
      success. This holds for every kind, every decoder and every two variants of a document. */
  lemma StaleReadBreaksAgreement(k: Kind, c: Codec, name: string, a: string, b: string)
    requires Variants(c, k, name, a, b)
    ensures var e, s := StaleEnv(k, c, a, b, false), Beginning(k, a);
            && Start(s) && FreshObject(e, name, s)
            && (forall n: nat :: Steady(e, name, At(e, s, n)))
            && (forall n: nat :: n != 6 ==> e.tape(At(e, s, n).world.clock).read.Fresh?)
            && At(e, s, 12).pass.Idle?
            && !Agree(k, name, At(e, s, 12).world)
  {
    var e, s := StaleEnv(k, c, a, b, false), Beginning(k, a);
    Starts(e, name, a);
    StaleEnd(k, c, name, a, b);
    forall n: nat
      ensures Steady(e, name, At(e, s, n)) && (n != 6 ==> e.tape(At(e, s, n).world.clock).read.Fresh?)
    {
      StaleRunIsSteady(k, c, name, a, b, false, n);
    }
    assert |UpdateSuccess(k)| == |Prefix(k)| + 13 && |UpdateFail(k)| == |Prefix(k)| + 10;
    assert a != b;
  }

  lemma LaggingRecord(k: Kind, c: Codec, name: string, a: string, b: string)
    requires Variants(c, k, name, a, b)
    ensures At(StaleEnv(k, c, a, b, true), Beginning(k, a), 11) ==
            Sys(StaleWorld(k, a, b, b, name, 1, 11), PatchWrite(Outdated(k, a, b), name, OkNote(UpdateSuccess(k)), false))
  {
    var e, s := StaleEnv(k, c, a, b, true), Beginning(k, a);
    StaleSend(k, c, name, a, b, true);
    Unrolled(e, s, 10);
    NobodyActs(e, StaleWorld(k, a, b, b, name, 1, 10));
  }

  lemma LaggingEnd(k: Kind, c: Codec, name: string, a: string, b: string)
    requires Variants(c, k, name, a, b)
    ensures var r := At(StaleEnv(k, c, a, b, true), Beginning(k, a), 12);
            && r.pass.Idle? && r.world.live.Some? && r.world.pinot == map[name := b]
            && r.world.live.value.spec.json == a && r.world.live.value.status.currentJson == b
  {
    var e, s := StaleEnv(k, c, a, b, true), Beginning(k, a);
    LaggingRecord(k, c, name, a, b);
    Unrolled(e, s, 11);
    NobodyActs(e, StaleWorld(k, a, b, b, name, 1, 11));
  }

  /** The same run with one lagging cache for both reads of the second pass: what it sends is not wanted
      any more, but it records just that, and agreement holds. */
  lemma LaggingCacheKeepsAgreement(k: Kind, c: Codec, name: string, a: string, b: string)
    requires Variants(c, k, name, a, b)
    ensures var e, s := StaleEnv(k, c, a, b, true), Beginning(k, a);
            && Start(s) && FreshObject(e, name, s)
            && (forall n: nat :: Steady(e, name, At(e, s, n)))
            && At(e, s, 12).pass.Idle? && At(e, s, 12).world.live.Some?
            && Agree(k, name, At(e, s, 12).world)
            && At(e, s, 12).world.pinot == map[name := b] && At(e, s, 12).world.live.value.spec.json == a
  {
    var e, s := StaleEnv(k, c, a, b, true), Beginning(k, a);
    Starts(e, name, a);
    LaggingEnd(k, c, name, a, b);
    NamedIsNotEmpty(e, b);
    forall n: nat
      ensures Steady(e, name, At(e, s, n))
    {
      StaleRunIsSteady(k, c, name, a, b, true, n);
    }
  }

  // ------------------------------------------------------------------ an existing entity reported absent

  /** The spec is edited before the second pass; that pass is told that the entity does not exist, and
      its POST is refused. */
  function FalseTurn(b: string, i: nat): Turn {
    if i == 2 || i == 8 then NotFound(i)
    else if i == 6 then Plain(i).(before := [EditSpec(SpecOf(b))])
    else if i == 9 then Plain(i).(reply := Answer(409, "exists"))
    else Plain(i)
  }

  function FalseEnv(k: Kind, c: Codec, b: string): Env { Env(k, c, (i: nat) => FalseTurn(b, i)) }

  function EditedWorld(k: Kind, a: string, b: string, name: string, posts: nat, clock: nat): World {
    World(Some(Outdated(k, a, b)), [NewObject(k, a), Created(k, a), Outdated(k, a, b)],
          map[name := a], NOTHING.(posts := posts), [], clock)
  }

  function RefusedNote(k: Kind): Note { CreateNote(k, Answer(409, "exists")) }

  lemma FalseStart(k: Kind, c: Codec, name: string, a: string, b: string)
    requires Variants(c, k, name, a, b)
    ensures At(FalseEnv(k, c, b), Beginning(k, a), 8) ==
            Sys(EditedWorld(k, a, b, name, 0, 8), Get(Outdated(k, a, b), name))
  {
    var e, s := FalseEnv(k, c, b), Beginning(k, a);
    CreateRun(e, name, a);
    Unrolled(e, s, 6);
    OneAction(CreatedWorld(k, a, name), EditSpec(SpecOf(b)));
    assert Interfere(CreatedWorld(k, a, name), EditSpec(SpecOf(b))).past
        == [NewObject(k, a), Created(k, a), Outdated(k, a, b)];
    assert Arrive(e, CreatedWorld(k, a, name)) == EditedWorld(k, a, b, name, 0, 7);
    assert Step(e, Sys(CreatedWorld(k, a, name).(tally := Tally(1, 0, 1, 0, 0)), Idle))
        == Sys(EditedWorld(k, a, b, name, 0, 7), Lookup(Outdated(k, a, b)));
    Unrolled(e, s, 7);
    NobodyActs(e, EditedWorld(k, a, b, name, 0, 7));
  }

  lemma FalsePost(k: Kind, c: Codec, name: string, a: string, b: string)
    requires Variants(c, k, name, a, b)
    ensures At(FalseEnv(k, c, b), Beginning(k, a), 11) ==
            Sys(EditedWorld(k, a, b, name, 1, 11), PatchWrite(Outdated(k, a, b), name, RefusedNote(k), false))
  {
    var e, s, o := FalseEnv(k, c, b), Beginning(k, a), Outdated(k, a, b);
    FalseStart(k, c, name, a, b);
    Unrolled(e, s, 8);
    assert At(e, s, 9) == Sys(EditedWorld(k, a, b, name, 0, 9), Post(o, name));
    Unrolled(e, s, 9);
    assert At(e, s, 10) == Sys(EditedWorld(k, a, b, name, 1, 10), PatchRead(name, RefusedNote(k), false));
    Unrolled(e, s, 10);
  }

  lemma FalseEnd(k: Kind, c: Codec, name: string, a: string, b: string)
    requires Variants(c, k, name, a, b)
    ensures var r := At(FalseEnv(k, c, b), Beginning(k, a), 12);
            && r.pass.Idle? && r.world.live.Some? && r.world.pinot == map[name := a]
            && r.world.live.value.status.currentJson == b
            && r.world.live.value.status.message == RefusedNote(k).message
  {
    var e, s := FalseEnv(k, c, b), Beginning(k, a);
    FalsePost(k, c, name, a, b);
    Unrolled(e, s, 11);
    NobodyActs(e, EditedWorld(k, a, b, name, 1, 11));
  }

  lemma FalseRunIsSteady(k: Kind, c: Codec, name: string, a: string, b: string, n: nat)
    requires Variants(c, k, name, a, b) && n != 9
    ensures Steady(FalseEnv(k, c, b), name, At(FalseEnv(k, c, b), Beginning(k, a), n))
  {
    var e, s := FalseEnv(k, c, b), Beginning(k, a);
    ClockCounts(e, s, n);
    if n == 6 {
      CreateRun(e, name, a);
      BetweenPasses(e, name, a, b);
    } else if n == 8 {
      FalseStart(k, c, name, a, b);
    } else if n == 2 {
      CreateReads(e, name, a);
    }
    TurnIsSteady(e, name, At(e, s, n));
  }

  /** Even with fresh reads one false report of absence, followed by a refused POST, puts JSON on record
      that Pinot does not store. */
  lemma FalseAbsenceBreaksAgreement(k: Kind, c: Codec, name: string, a: string, b: string)
    requires Variants(c, k, name, a, b)
    ensures var e, s := FalseEnv(k, c, b), Beginning(k, a);
            && Start(s) && FreshObject(e, name, s)
            && (forall n: nat :: n != 9 ==> Steady(e, name, At(e, s, n)))
            && (forall i: nat :: e.tape(i).read.Fresh?)
            && At(e, s, 12).pass.Idle?
            && !Agree(k, name, At(e, s, 12).world)
  {
    var e, s := FalseEnv(k, c, b), Beginning(k, a);
    Starts(e, name, a);
    FalseEnd(k, c, name, a, b);
    forall n: nat | n != 9
      ensures Steady(e, name, At(e, s, n))
    {
      FalseRunIsSteady(k, c, name, a, b, n);
    }
    assert RefusedNote(k).message[|Prefix(k)|] == 'C' && UpdateFail(k)[|Prefix(k)|] == 'U';
    assert a != b;
  }

  // ------------------------------------------------------------------ a note that comes too late

  /** Before the second pass the scan notes "x", and the spec is edited, so that the pass updates the
      table and clears the log. Then a second note is written that was computed before that. */
  function LateTurn(b: string, i: nat): Turn {
    if i == 2 then NotFound(i)
    else if i == 6 then Plain(i).(before := [NoteReload(1, "x"), EditSpec(SpecOf(b))])
    else if i == 12 then Plain(i).(before := [NoteReload(2, "y")])
    else Plain(i)
  }

  function LateEnv(c: Codec, b: string): Env { Env(Table, c, (i: nat) => LateTurn(b, i)) }

  function NotedObject(a: string): CR {
    var o := Created(Table, a);
    o.(status := o.status.(reloadStatus := Some(["x"])), version := 3)
  }

  function WantedObject(a: string, b: string): CR { NotedObject(a).(spec := SpecOf(b), version := 4) }

  function ClearedObject(a: string, b: string): CR {
    var o := WantedObject(a, b);
    o.(status := Stamp(Table, o, OkNote(UpdateSuccess(Table)), 12), version := 5)
  }

  function LatePast(a: string, b: string): seq<CR> {
    [NewObject(Table, a), Created(Table, a), NotedObject(a), WantedObject(a, b)]
  }

  function LateWorld(a: string, b: string, stored: string, name: string, puts: nat, clock: nat): World {
    World(Some(WantedObject(a, b)), LatePast(a, b), map[name := stored], NOTHING.(puts := puts), [], clock)
  }

  function ClearedWorld(a: string, b: string, name: string): World {
    World(Some(ClearedObject(a, b)), LatePast(a, b) + [ClearedObject(a, b)], map[name := b],
          Tally(1, 0, 0, 1, 0), [], 12)
  }

  lemma LateNotes(a: string, b: string, name: string)
    ensures InterfereAll(CreatedWorld(Table, a, name), [NoteReload(1, "x"), EditSpec(SpecOf(b))])
         == LateWorld(a, b, a, name, 0, 6)
  {
    var w := CreatedWorld(Table, a, name);
    var w1 := Interfere(w, NoteReload(1, "x"));
    assert Entries(w.live.value.status) + ["x"] == ["x"];
    assert w1.live == Some(NotedObject(a));
    assert w1.past == [NewObject(Table, a), Created(Table, a), NotedObject(a)];
    TwoActions(w, NoteReload(1, "x"), EditSpec(SpecOf(b)));
  }

  lemma LateStart(c: Codec, name: string, a: string, b: string)
    requires Variants(c, Table, name, a, b)
    ensures At(LateEnv(c, b), Beginning(Table, a), 7) == Sys(LateWorld(a, b, a, name, 0, 7), Lookup(WantedObject(a, b)))
  {
    var e, s := LateEnv(c, b), Beginning(Table, a);
    CreateRun(e, name, a);
    Unrolled(e, s, 6);
    LateNotes(a, b, name);
    assert Arrive(e, CreatedWorld(Table, a, name)) == LateWorld(a, b, a, name, 0, 7);
    assert Step(e, Sys(CreatedWorld(Table, a, name).(tally := Tally(1, 0, 1, 0, 0)), Idle))
        == Sys(LateWorld(a, b, a, name, 0, 7), Lookup(WantedObject(a, b)));
  }

  lemma LateCompare(c: Codec, name: string, a: string, b: string)
    requires Variants(c, Table, name, a, b)
    ensures At(LateEnv(c, b), Beginning(Table, a), 9) ==
            Sys(LateWorld(a, b, a, name, 0, 9), Put(WantedObject(a, b), name, "ok"))
  {
    var e, s, o := LateEnv(c, b), Beginning(Table, a), WantedObject(a, b);
    LateStart(c, name, a, b);
    NamedIsNotEmpty(e, a);
    Unrolled(e, s, 7);
    assert At(e, s, 8) == Sys(LateWorld(a, b, a, name, 0, 8), Get(o, name));
    Unrolled(e, s, 8);
  }

  lemma LateSend(c: Codec, name: string, a: string, b: string)
    requires Variants(c, Table, name, a, b)
    ensures At(LateEnv(c, b), Beginning(Table, a), 11) ==
            Sys(LateWorld(a, b, b, name, 1, 11), PatchWrite(WantedObject(a, b), name, OkNote(UpdateSuccess(Table)), false))
  {
    var e, s := LateEnv(c, b), Beginning(Table, a);
    LateCompare(c, name, a, b);
    Unrolled(e, s, 9);
    assert map[name := a][name := b] == map[name := b];
    assert At(e, s, 10) == Sys(LateWorld(a, b, b, name, 1, 10), PatchRead(name, OkNote(UpdateSuccess(Table)), false));
    Unrolled(e, s, 10);
  }

  lemma LateCleared(c: Codec, name: string, a: string, b: string)
    requires Variants(c, Table, name, a, b)
    ensures At(LateEnv(c, b), Beginning(Table, a), 12) == Sys(ClearedWorld(a, b, name), Idle)
    ensures SinceStamp(LateEnv(c, b), Beginning(Table, a), 12) == []
  {
    var e, s := LateEnv(c, b), Beginning(Table, a);
    LateSend(c, name, a, b);
    Unrolled(e, s, 11);
    NobodyActs(e, LateWorld(a, b, b, name, 1, 11));
  }

  lemma LateNoteWritten(a: string, b: string, name: string)
    ensures var w := ClearedWorld(a, b, name).(tally := NOTHING);
            var r := InterfereAll(w, [NoteReload(2, "y")]);
            && LogOf(r) == ["x", "y"] && r.live.Some? && !NotesFit(w, [NoteReload(2, "y")])
  {
    var w := ClearedWorld(a, b, name).(tally := NOTHING);
    OneAction(w, NoteReload(2, "y"));
    assert VersionRead(w, w.live.value, 2) == NotedObject(a);
    assert Entries(NotedObject(a).status) + ["y"] == ["x", "y"];
  }

  lemma LateNotesAtomic(w: World, b: string)
    requires |w.past| == 2
    ensures AtomicNotes(w, [NoteReload(1, "x"), EditSpec(SpecOf(b))])
  {
    var acts := [NoteReload(1, "x"), EditSpec(SpecOf(b))];
    assert acts[1..] == [EditSpec(SpecOf(b))] && acts[1..][1..] == [];
  }

  lemma {:induction false} LateIsAtomic(c: Codec, name: string, a: string, b: string, n: nat)
    requires Variants(c, Table, name, a, b) && n <= 12
    ensures AtomicUpTo(LateEnv(c, b), Beginning(Table, a), n)
  {
    if n > 0 {
      var e, s, m := LateEnv(c, b), Beginning(Table, a), n - 1;
      LateIsAtomic(c, name, a, b, m);
      ClockCounts(e, s, m);
      if m == 6 {
        CreateRun(e, name, a);
        LateNotesAtomic(Caller(At(e, s, m)), b);
      }
    }
  }

  /** The other way to lose exactness: every status write clears what it should, but a note that read
      the log before it was cleared brings back an old answer when it is written. */
  lemma LateNoteRevivesAnswer(c: Codec, name: string, a: string, b: string)
    requires Variants(c, Table, name, a, b)
    ensures var e, s := LateEnv(c, b), Beginning(Table, a);
            && Start(s) && OnlyNotesTouchLog(e)
            && FitsUpTo(e, s, 12) && !CallFits(e, At(e, s, 12)) && StampFits(e, At(e, s, 12))
            && At(e, s, 13).world.live.Some?
            && LogOf(At(e, s, 13).world) == ["x", "y"] && SinceStamp(e, s, 13) == ["y"]
  {
    var e, s := LateEnv(c, b), Beginning(Table, a);
    Starts(e, name, a);
    LateIsAtomic(c, name, a, b, 12);
    AtomicRunFits(e, s, 12);
    LateCleared(c, name, a, b);
    LateNoteWritten(a, b, name);
    LateSum(c, name, a, b);
    Unrolled(e, s, 12);
  }

  lemma LateSum(c: Codec, name: string, a: string, b: string)
    requires Variants(c, Table, name, a, b)
    ensures SinceStamp(LateEnv(c, b), Beginning(Table, a), 13) == ["y"]
  {
    var e, s := LateEnv(c, b), Beginning(Table, a);
    LateCleared(c, name, a, b);
    var t := At(e, s, 12);
    assert !Stamps(e, t);
    assert SinceStamp(e, s, 13) == LogAfter(e, t, SinceStamp(e, s, 12));
    assert [NoteReload(2, "y")][1..] == [];
    assert NotedBy([NoteReload(2, "y")]) == ["y"];
  }
}
