/** Concrete inputs on which deletion never finishes, an object never settles, claims are not those of
    the resource, and agreement breaks. The JSON texts are read by the scanner of `JsonText`. */
module Witnesses {
  import opened Json
  import opened Protocol
  import opened Safety
  import opened Agreement
  import opened FreshReads
  import opened Quiet
  import opened Limits
  import opened JsonText
  import opened JsonLookup
  import ReloadLog
  import Runs
  import PassOutcomes
  import Expansion
  import ExpansionProofs

  // ------------------------------------------------------------------ documents

  /** A decoder for objects that keeps the raw text of every member. */
  function DecodeObject(s: string): Option<Json> {
    match MembersOf(s)
    case None => None
    case Some(m) => Some(Obj(map key | key in m :: Str(m[key])))
  }

  const OBJECTS := Codec(DecodeObject, MembersOf)

  function FlightsDoc(k: Kind, version: string): Doc {
    Object("", Some(MoreMembers(NameKey(k), "", "", Text("flights"), "", "",
                    LastMember("version", "", "", Text(version), ""))))
  }

  function Flights(k: Kind, version: string): string { TextOf(FlightsDoc(k, version)) }

  lemma ObjectsAreLawful()
    ensures Lawful(OBJECTS) && ReadsText(OBJECTS)
  {
    assert MembersOf("") == None;
  }

  lemma FlightsValid(k: Kind, version: string)
    requires AllPlain(version)
    ensures ValidDoc(FlightsDoc(k, version))
  {
    var rest := LastMember("version", "", "", Text(version), "");
    assert ValidDoc(Text(version)) && AllPlain("version") && ValidMembers(rest);
    assert AllPlain(NameKey(k)) && AllPlain("flights") && ValidDoc(Text("flights"));
  }

  lemma FlightsRead(k: Kind, version: string)
    requires AllPlain(version)
    ensures NameOf(Env(k, OBJECTS, Runs.Plain), Flights(k, version)) == Some("flights")
    ensures MembersOf(Flights(k, version)).Some?
    ensures "version" in MembersOf(Flights(k, version)).value
    ensures MembersOf(Flights(k, version)).value["version"] == TextOf(Text(version))
  {
    var d := FlightsDoc(k, version);
    ObjectsAreLawful();
    FlightsValid(k, version);
    assert "" + Write(d, "") == TextOf(d);
    LookupWritten(OBJECTS, "", d, "", NameKey(k));
    MembersOfDocument("", d, "");
    ToMapHasLast(d.members.value, "version");
    assert NameKey(k) != "version" by { assert NameKey(k)[0] != 'v'; }
  }

  lemma VersionsDiffer()
    ensures TextOf(Text("1")) != TextOf(Text("2"))
  {
    assert TextOf(Text("1"))[1] == '1' && TextOf(Text("2"))[1] == '2';
  }

  lemma MembersTellApart(s: string, t: string, key: string)
    requires MembersOf(s).Some? && MembersOf(t).Some?
    requires key in MembersOf(s).value && key in MembersOf(t).value && MembersOf(s).value[key] != MembersOf(t).value[key]
    ensures IsEqualJson(OBJECTS, s, t) == Some(false)
  {
    var o, p := DecodeObject(s).value.fields, DecodeObject(t).value.fields;
    assert o[key] == Str(MembersOf(s).value[key]) && p[key] == Str(MembersOf(t).value[key]);
  }

  /** The runs of `Runs` exist: two texts of one name that differ in another member. */
  lemma FlightsAreVariants(k: Kind)
    ensures Runs.Variants(OBJECTS, k, "flights", Flights(k, "1"), Flights(k, "2"))
    ensures SameJson(OBJECTS, Flights(k, "2"), Flights(k, "2"))
  {
    ObjectsAreLawful();
    FlightsRead(k, "1");
    FlightsRead(k, "2");
    VersionsDiffer();
    MembersTellApart(Flights(k, "1"), Flights(k, "2"), "version");
  }

  // ------------------------------------------------------------------ quiet environments exist

  /** Pinot answers every call with 200 and the same body; nothing else happens. */
  function SteadyEnv(k: Kind, c: Codec, body: string): Env {
    Env(k, c, (i: nat) => Turn([], Fresh, Done, Answer(200, body), i + 1))
  }

  lemma {:induction false} RestIsQuiet(k: Kind, c: Codec, body: string, s: Sys)
    requires |s.world.past| > 0 && !s.pass.Lookup? && !s.pass.Get?
    ensures QuietRest(SteadyEnv(k, c, body), s)
    decreases Remaining(s.pass)
  {
    if !s.pass.Idle? { RestIsQuiet(k, c, body, Step(SteadyEnv(k, c, body), s)); }
  }

  lemma PassIsQuiet(k: Kind, c: Codec, body: string, w: World, name: string)
    requires |w.past| > 0 && w.live.Some?
    requires NameOf(SteadyEnv(k, c, body), w.live.value.spec.json) == Some(name)
    requires if name in w.pinot then ReportsPresent(k, Answer(200, body)) else ReportsAbsent(k, Answer(200, body))
    ensures QuietPass(SteadyEnv(k, c, body), w)
  {
    var e, w0 := SteadyEnv(k, c, body), w.(tally := NOTHING);
    var s1 := Step(e, Sys(w, Idle));
    QuietArrive(e, w0);
    assert s1 == Sys(w0.(clock := w.clock + 1), Lookup(w.live.value));
    var s2 := Step(e, s1);
    QuietArrive(e, s1.world);
    assert s2 == Sys(w0.(clock := w.clock + 2), Get(w.live.value, name));
    RestIsQuiet(k, c, body, Step(e, s2));
  }

  // ------------------------------------------------------------------ a deletion that never finishes

  predicate Lingers(e: Env, name: string, w: World) {
    BeingDeleted(e, Abs(w)) && NameOf(e, w.live.value.spec.json) == Some(name) && name !in w.pinot
  }

  lemma LingersNext(k: Kind, c: Codec, w: World, name: string)
    requires k.Table? && Lawful(c) && WellFormed(w) && Lingers(SteadyEnv(k, c, "{}"), name, w)
    ensures var e := SteadyEnv(k, c, "{}");
            QuietPass(e, w) && WellFormed(Reconcile(e, w)) && Lingers(e, name, Reconcile(e, w))
  {
    PassIsQuiet(k, c, "{}", w, name);
    QuietPassIsQuietNext(SteadyEnv(k, c, "{}"), w);
  }

  lemma StillLingers(k: Kind, c: Codec, w: World, name: string, n: nat)
    requires k.Table? && Lawful(c) && WellFormed(w) && Lingers(SteadyEnv(k, c, "{}"), name, w)
    ensures var r := Passes(SteadyEnv(k, c, "{}"), w, n);
            WellFormed(r) && Lingers(SteadyEnv(k, c, "{}"), name, r)
  {
    var e := SteadyEnv(k, c, "{}");
    var holds := (i: nat) => |w.past| > 0 && WellFormed(Passes(e, w, i)) && Lingers(e, name, Passes(e, w, i));
    forall i: nat | holds(i)
      ensures holds(i + 1)
    {
      LingersNext(k, c, Passes(e, w, i), name);
    }
    Always(holds, n);
  }

  lemma LingersOn(k: Kind, c: Codec, w: World, name: string, n: nat)
    requires k.Table? && Lawful(c) && WellFormed(w) && Lingers(SteadyEnv(k, c, "{}"), name, w)
    ensures QuietAt(SteadyEnv(k, c, "{}"), w, n)
  {
    StillLingers(k, c, w, name, n);
    LingersNext(k, c, Passes(SteadyEnv(k, c, "{}"), w, n), name);
  }

  function MarkedObject(k: Kind, json: string): CR { Runs.NewObject(k, json).(deleting := true) }

  function Alone(o: CR, pinot: map<string, string>): World { World(Some(o), [o], pinot, NOTHING, [], 0) }

  /** A table that was marked for deletion while Pinot does not have it: every quiet pass creates it,
      deletes it again and keeps the finalizer. */
  lemma DeletionNeverFinishes()
    ensures var e, w := SteadyEnv(Table, OBJECTS, "{}"), Alone(MarkedObject(Table, Flights(Table, "1")), map[]);
            && Lawful(e.codec) && WellFormed(w) && AllQuiet(e, w)
            && (forall n: nat :: BeingDeleted(e, After(e, w, n)))
  {
    var e, w := SteadyEnv(Table, OBJECTS, "{}"), Alone(MarkedObject(Table, Flights(Table, "1")), map[]);
    ObjectsAreLawful();
    FlightsRead(Table, "1");
    assert NameOf(e, Flights(Table, "1")) == Some("flights");
    forall n: nat
      ensures QuietAt(e, w, n)
    {
      LingersOn(Table, OBJECTS, w, "flights", n);
    }
    DeletionFinishesExactly(e, w);
  }

  // ------------------------------------------------------------------ an object that never settles

  predicate Drifted(e: Env, name: string, w: World) {
    && w.live.Some? && !w.live.value.deleting && Finalizer(e) in w.live.value.finalizers
    && NameOf(e, w.live.value.spec.json) == Some(name) && name in w.pinot
    && SameJson(e.codec, w.live.value.status.currentJson, w.live.value.spec.json)
  }

  lemma DriftsNext(k: Kind, c: Codec, w: World, name: string)
    requires k.Schema? && Lawful(c) && WellFormed(w) && Drifted(SteadyEnv(k, c, "ok"), name, w)
    ensures var e := SteadyEnv(k, c, "ok");
            QuietPass(e, w) && WellFormed(Reconcile(e, w)) && Drifted(e, name, Reconcile(e, w))
  {
    PassIsQuiet(k, c, "ok", w, name);
    QuietPassIsQuietNext(SteadyEnv(k, c, "ok"), w);
  }

  lemma StillDrifted(k: Kind, c: Codec, w: World, name: string, n: nat)
    requires k.Schema? && Lawful(c) && WellFormed(w) && Drifted(SteadyEnv(k, c, "ok"), name, w)
    ensures var r := Passes(SteadyEnv(k, c, "ok"), w, n);
            WellFormed(r) && Drifted(SteadyEnv(k, c, "ok"), name, r)
  {
    var e := SteadyEnv(k, c, "ok");
    var holds := (i: nat) => |w.past| > 0 && WellFormed(Passes(e, w, i)) && Drifted(e, name, Passes(e, w, i));
    forall i: nat | holds(i)
      ensures holds(i + 1)
    {
      DriftsNext(k, c, Passes(e, w, i), name);
    }
    Always(holds, n);
  }

  lemma DriftsOn(k: Kind, c: Codec, w: World, name: string, n: nat)
    requires k.Schema? && Lawful(c) && WellFormed(w) && Drifted(SteadyEnv(k, c, "ok"), name, w)
    ensures QuietAt(SteadyEnv(k, c, "ok"), w, n)
  {
    StillDrifted(k, c, w, name, n);
    DriftsNext(k, c, Passes(SteadyEnv(k, c, "ok"), w, n), name);
  }

  function RecordedObject(k: Kind, json: string): CR {
    var o := Runs.NewObject(k, json);
    o.(status := o.status.(currentJson := json))
  }

  /** A schema whose record equals its spec while Pinot stores an older version, as a refused update
      leaves it: no number of quiet passes settles it. */
  lemma DriftedNeverSettles()
    ensures var e := SteadyEnv(Schema, OBJECTS, "ok");
            var w := Alone(RecordedObject(Schema, Flights(Schema, "2")), map["flights" := Flights(Schema, "1")]);
            && Lawful(e.codec) && WellFormed(w) && AllQuiet(e, w) && Active(Abs(w))
            && (forall n: nat :: !Settled(e, After(e, w, n)))
  {
    var e := SteadyEnv(Schema, OBJECTS, "ok");
    var w := Alone(RecordedObject(Schema, Flights(Schema, "2")), map["flights" := Flights(Schema, "1")]);
    FlightsAreVariants(Schema);
    FlightsRead(Schema, "2");
    assert NameOf(e, Flights(Schema, "2")) == Some("flights");
    forall n: nat
      ensures QuietAt(e, w, n)
    {
      DriftsOn(Schema, OBJECTS, w, "flights", n);
    }
    DriftCannotSettle(e, Abs(w), "flights", Flights(Schema, "1"));
    SettlesExactly(e, w);
  }

  lemma DriftCannotSettle(e: Env, b: Brief, name: string, stored: string)
    requires b.Brief? && NameOf(e, b.spec.json) == Some(name) && name in b.pinot && b.pinot[name] == stored
    requires b.recorded == b.spec.json && IsEqualJson(e.codec, stored, b.spec.json) == Some(false)
    ensures !CanSettle(e, b)
  {
  }

  // ------------------------------------------------------------------ claims that are not the resource's

  const NODE := Expansion.NodeSpec("node", "StatefulSet", "server", 1, "k8s", "config")

  const TWO_DISKS := Expansion.K8sConfig(
    "k8s", [], [], [],
    [Expansion.StorageConfig("data", "/data", "small"), Expansion.StorageConfig("logs", "/logs", "large")], "", "")

  const PINOT := Expansion.Pinot(
    "pinot", "default", "zk", None, ["controller", "broker", "server", "minion"],
    [TWO_DISKS], [Expansion.NodeConfig("config", "", "")], [NODE], [])

  lemma OneRow()
    ensures Expansion.RowsTo(PINOT, [NODE], 1, 0, 0) == [Expansion.Row(0, 0, 0)]
    ensures Expansion.AllRowsMatch(PINOT, [NODE], [Expansion.Row(0, 0, 0)])
  {
    assert Expansion.RowMatches(PINOT, [NODE], Expansion.Row(0, 0, 0));
    assert Expansion.RowsTo(PINOT, [NODE], 0, 0, 0) == [];
    assert Expansion.RowsTo(PINOT, [NODE], 0, 0, 1) == [Expansion.Row(0, 0, 0)];
    assert Expansion.RowsTo(PINOT, [NODE], 0, 1, 0) == [Expansion.Row(0, 0, 0)];
  }

  /** One server with a small and a large disk: whatever the expansion generates for it, both claims
      ask for the large one. */
  lemma BothClaimsAreLarge(hash: Expansion.HashFunction, g: Expansion.Generated)
    requires Expansion.AllRowsMatch(PINOT, [NODE], Expansion.RowsTo(PINOT, [NODE], 1, 0, 0))
    requires Expansion.Expands(PINOT, [NODE], hash, Expansion.RowsTo(PINOT, [NODE], 1, 0, 0), g)
    ensures var views := Expansion.FollowAll(g.memory, g.claims);
            && |views| == 2 && views[0].pvcSpec == "large" && views[1].pvcSpec == "large"
            && views != ExpansionProofs.FaithfulOf(PINOT, [NODE], Expansion.RowsTo(PINOT, [NODE], 1, 0, 0))
  {
    OneRow();
    var rows := Expansion.RowsTo(PINOT, [NODE], 1, 0, 0);
    ExpansionProofs.ClaimListFaithfulExactly(PINOT, [NODE], hash, rows, g);
    assert TWO_DISKS.storage[0].pvcSpec == "small" && TWO_DISKS.storage[1].pvcSpec == "large";
    assert rows[0] == Expansion.Row(0, 0, 0) && PINOT.k8sConfigs[0] == TWO_DISKS;
    assert !ExpansionProofs.UniformStorage(TWO_DISKS);
    assert Expansion.ClaimsOf(PINOT, [NODE], rows[..0]) == [];
    assert Expansion.ClaimsOf(PINOT, [NODE], rows) == [] + Expansion.ClaimsAt(PINOT, [NODE], rows[0]);
  }

  // ------------------------------------------------------------------ agreement and the reload log

  /** The runs of `Runs` on these documents: an outdated first read and a false report of absence break
      agreement for a schema, and a late note brings back a cleared answer for a table. */
  lemma PromisesBreak()
    ensures var e, s := Runs.StaleEnv(Schema, OBJECTS, Flights(Schema, "1"), Flights(Schema, "2"), false),
                        Runs.Beginning(Schema, Flights(Schema, "1"));
            FreshObject(e, "flights", s) && !Agree(Schema, "flights", At(e, s, 12).world)
    ensures var e, s := Runs.FalseEnv(Schema, OBJECTS, Flights(Schema, "2")), Runs.Beginning(Schema, Flights(Schema, "1"));
            FreshObject(e, "flights", s) && !Agree(Schema, "flights", At(e, s, 12).world)
    ensures var e, s := Runs.LateEnv(OBJECTS, Flights(Table, "2")), Runs.Beginning(Table, Flights(Table, "1"));
            ReloadLog.LogOf(At(e, s, 13).world) == ["x", "y"] && ReloadLog.SinceStamp(e, s, 13) == ["y"]
  {
    FlightsAreVariants(Schema);
    FlightsAreVariants(Table);
    Runs.StaleReadBreaksAgreement(Schema, OBJECTS, "flights", Flights(Schema, "1"), Flights(Schema, "2"));
    Runs.FalseAbsenceBreaksAgreement(Schema, OBJECTS, "flights", Flights(Schema, "1"), Flights(Schema, "2"));
    Runs.LateNoteRevivesAnswer(OBJECTS, "flights", Flights(Table, "1"), Flights(Table, "2"));
  }

  // ------------------------------------------------------------------ a refused DELETE

  /** Pinot has the schema and refuses to delete it. */
  function RefusingTurn(i: nat): Turn {
    Turn([], Fresh, Done, if i == 4 then Answer(409, "in use") else Answer(200, "ok"), i + 1)
  }

  function RefusingEnv(): Env { Env(Schema, OBJECTS, (i: nat) => RefusingTurn(i)) }

  /** A marked schema, recorded as wanted and stored in Pinot. */
  function LeavingWorld(): World {
    Alone(RecordedObject(Schema, Flights(Schema, "1")).(deleting := true), map["flights" := Flights(Schema, "1")])
  }

  lemma LeavingIsReadable()
    ensures Lawful(OBJECTS) && NameOf(RefusingEnv(), Flights(Schema, "1")) == Some("flights")
    ensures SameJson(OBJECTS, Flights(Schema, "1"), Flights(Schema, "1"))
  {
    ObjectsAreLawful();
    FlightsRead(Schema, "1");
    SameAsItself(Flights(Schema, "1"));
  }

  lemma PassesOverLeaving()
    ensures var e, w, o := RefusingEnv(), LeavingWorld(), LeavingWorld().live.value;
            && Lawful(e.codec) && PassOutcomes.PassOver(e, w, o, "flights")
            && PassOutcomes.StraightOn(e, w, o) && PassOutcomes.Marked(e, o)
  {
    LeavingIsReadable();
  }

  /** The DELETE is answered with 409; the object is gone after this one pass and the entity remains. */
  lemma RefusedDeleteLeavesEntity()
    ensures var r := Reconcile(RefusingEnv(), LeavingWorld());
            && r.live.None? && "flights" in r.pinot && r.deletes == [DeleteRecord("flights", true, true)]
  {
    PassesOverLeaving();
    LastFinalizerGoes(RefusingEnv(), LeavingWorld(), LeavingWorld().live.value, "flights");
  }

  lemma LastFinalizerGoes(e: Env, w: World, o: CR, name: string)
    requires Lawful(e.codec) && PassOutcomes.PassOver(e, w, o, name) && PassOutcomes.StraightOn(e, w, o)
    requires o.deleting && o.finalizers == [Finalizer(e)] && e.tape(w.clock + 4).reply.Answer?
    ensures var r := Reconcile(e, w);
            && r.live.None? && r.deletes == w.deletes + [DeleteRecord(name, true, true)]
            && (name in r.pinot <==> name in w.pinot && e.tape(w.clock + 4).reply.code != 200)
  {
    PassOutcomes.StraightOnReleases(e, w, o, name);
    var past := Reconcile(e, w).past;
    OneFinalizerGone(o.finalizers, past[|past| - 1].finalizers, Finalizer(e));
  }

  lemma SameAsItself(s: string)
    requires MembersOf(s).Some?
    ensures SameJson(OBJECTS, s, s)
  {
  }

  lemma OneFinalizerGone(before: seq<string>, after: seq<string>, f: string)
    requires before == [f] && multiset(after) == multiset(before)[f := 0]
    ensures after == []
  {
    assert |after| == |multiset(after)|;
  }
}
