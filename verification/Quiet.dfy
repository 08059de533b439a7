/** Quiet passes: every call succeeds, every read is fresh, nobody else writes. A whole pass then
    acts on five facts only, and exactly when deletion and convergence finish can be decided. */
module Quiet {
  import opened Json
  import opened Protocol
  import opened Safety

  // ------------------------------------------------------------------ quiet passes

  predicate QuietCall(e: Env, s: Sys) {
    var t := e.tape(s.world.clock);
    && t.before == []
    && t.read.Fresh?
    && t.write.Done?
    && match s.pass
       case Get(_, name) =>
         if name in s.world.pinot then ReportsPresent(e.kind, t.reply) else ReportsAbsent(e.kind, t.reply)
       case Post(_, _) => t.reply.Answer? && t.reply.code == 200
       case Put(_, _, _) => t.reply.Answer? && t.reply.code == 200
       case Delete(_, _) => t.reply.Answer? && t.reply.code == 200
       case _ => true
  }

  predicate QuietRest(e: Env, s: Sys)
    requires |s.world.past| > 0
    decreases Remaining(s.pass)
  {
    s.pass.Idle? || (QuietCall(e, s) && QuietRest(e, Step(e, s)))
  }

  predicate QuietPass(e: Env, w: World)
    requires |w.past| > 0
  {
    QuietCall(e, Sys(w, Idle)) && QuietRest(e, Step(e, Sys(w, Idle)))
  }

  function Passes(e: Env, w: World, n: nat): (r: World)
    requires |w.past| > 0
    ensures |r.past| > 0
  {
    if n == 0 then w else Reconcile(e, Passes(e, w, n - 1))
  }

  predicate QuietAt(e: Env, w: World, n: nat)
    requires |w.past| > 0
  {
    QuietPass(e, Passes(e, w, n))
  }

  ghost predicate AllQuiet(e: Env, w: World)
    requires |w.past| > 0
  {
    forall n: nat :: QuietAt(e, w, n)
  }

  // ------------------------------------------------------------------ what a quiet pass depends on

  datatype Brief =
    | Gone(pinot: map<string, string>)
    | Brief(spec: Spec, recorded: string, finalizers: seq<string>, deleting: bool, pinot: map<string, string>)

  function Abs(w: World): (b: Brief)
    ensures b.Brief? <==> w.live.Some?
  {
    match w.live
    case None => Gone(w.pinot)
    case Some(o) => Brief(o.spec, o.status.currentJson, o.finalizers, o.deleting, w.pinot)
  }

  /** The finalizer stage. An update from a copy older than the last status patch is refused. */
  function FinalStage(e: Env, b: Brief, name: string, upToDate: bool): Brief
    requires b.Brief?
  {
    var f := Finalizer(e);
    if !b.deleting then
      if f !in b.finalizers && upToDate then b.(finalizers := b.finalizers + [f]) else b
    else if f !in b.finalizers then b
    else
      var gone := b.pinot - {name};
      if !upToDate then b.(pinot := gone)
      else if Without(b.finalizers, f) == [] then Gone(gone)
      else b.(pinot := gone, finalizers := Without(b.finalizers, f))
  }

  function Stored(b: Brief, name: string): (r: Brief)
    requires b.Brief?
    ensures r.Brief?
  {
    b.(pinot := b.pinot[name := b.spec.json], recorded := b.spec.json)
  }

  function QuietNext(e: Env, b: Brief): Brief {
    if b.Gone? then b else
    match NameOf(e, b.spec.json)
    case None => b
    case Some(name) =>
      if name !in b.pinot then FinalStage(e, Stored(b, name), name, false)
      else if !e.kind.Tenant? && b.recorded == "" then b.(recorded := b.spec.json)
      else match IsEqualJson(e.codec, b.recorded, b.spec.json)
        case None => b
        case Some(same) =>
          if same then FinalStage(e, b, name, true) else FinalStage(e, Stored(b, name), name, false)
  }

  // ------------------------------------------------------------------ a quiet pass is QuietNext

  lemma QuietArrive(e: Env, w: World)
    requires |w.past| > 0 && e.tape(w.clock).before == []
    ensures Arrive(e, w) == w.(clock := w.clock + 1)
  {
  }

  lemma QuietStep(e: Env, s: Sys)
    requires WellFormed(s.world) && !s.pass.Idle? && QuietRest(e, s)
    ensures QuietCall(e, s) && QuietRest(e, Step(e, s)) && WellFormed(Step(e, s).world)
    ensures Finish(e, s) == Finish(e, Step(e, s))
    ensures Arrive(e, s.world) == s.world.(clock := s.world.clock + 1)
  {
    QuietArrive(e, s.world);
    StepExtends(e, s);
  }

  /** A copy that may lag behind only in its status and version. */
  predicate CopyMatches(w: World, copy: CR) {
    && w.live.Some?
    && copy.spec == w.live.value.spec
    && copy.finalizers == w.live.value.finalizers
    && copy.deleting == w.live.value.deleting
  }

  lemma QuietUpdate(e: Env, w: World, p: Pass, name: string)
    requires WellFormed(w) && (p.AddFinalizer? || p.RemoveFinalizer?) && CopyMatches(w, p.copy)
    requires QuietRest(e, Sys(w, p))
    requires p.RemoveFinalizer? ==> p.copy.deleting && Finalizer(e) in p.copy.finalizers && name !in w.pinot
    requires p.AddFinalizer? ==> !p.copy.deleting && Finalizer(e) !in p.copy.finalizers
    ensures Abs(Finish(e, Sys(w, p)).world) == FinalStage(e, Abs(w), name, p.copy.version == w.live.value.version)
    ensures WellFormed(Finish(e, Sys(w, p)).world)
  {
    QuietStep(e, Sys(w, p));
    assert w.pinot - {name} == w.pinot || name in w.pinot;
  }

  lemma QuietDelete(e: Env, w: World, copy: CR, name: string)
    requires WellFormed(w) && CopyMatches(w, copy) && copy.deleting && Finalizer(e) in copy.finalizers
    requires NameOf(e, copy.spec.json) == Some(name)
    requires QuietRest(e, Sys(w, LookupAgain(copy)))
    ensures Abs(Finish(e, Sys(w, LookupAgain(copy))).world)
         == FinalStage(e, Abs(w), name, copy.version == w.live.value.version)
    ensures WellFormed(Finish(e, Sys(w, LookupAgain(copy))).world)
  {
    var s0 := Sys(w, LookupAgain(copy));
    QuietStep(e, s0);
    var s1 := Step(e, s0);
    assert s1.pass == Delete(copy, name);
    QuietStep(e, s1);
    var s2 := Step(e, s1);
    assert s2.pass == RemoveFinalizer(copy) && s2.world.pinot == w.pinot - {name};
    QuietUpdate(e, s2.world, s2.pass, name);
    assert s2.world.pinot - {name} == w.pinot - {name};
  }

  lemma QuietFinalStage(e: Env, w: World, copy: CR, name: string)
    requires WellFormed(w) && CopyMatches(w, copy) && NameOf(e, copy.spec.json) == Some(name)
    requires QuietRest(e, Sys(w, Finalize(e, copy)))
    ensures var r := Finish(e, Sys(w, Finalize(e, copy))).world;
            WellFormed(r) && Abs(r) == FinalStage(e, Abs(w), name, copy.version == w.live.value.version)
  {
    match Finalize(e, copy)
    case AddFinalizer(_) => QuietUpdate(e, w, Finalize(e, copy), name);
    case LookupAgain(_) => QuietDelete(e, w, copy, name);
    case _ =>
  }

  /** What two quiet calls of `PatchStatus` leave: the spec is recorded, and the caller's copy is one
      version behind. */
  ghost predicate Recorded(w: World, o: CR, w': World) {
    && WellFormed(w')
    && CopyMatches(w', o)
    && w'.live.value.version == o.version + 1
    && var b := Abs(w);
       b.Brief? && Abs(w') == b.(recorded := o.spec.json)
  }

  lemma QuietPatch(e: Env, w: World, name: string, note: Note, adopting: bool) returns (s: Sys)
    requires WellFormed(w) && w.live.Some? && QuietRest(e, Sys(w, PatchRead(name, note, adopting)))
    ensures Recorded(w, w.live.value, s.world) && s.world.live.value.status.message == note.message
    ensures s.pass == if adopting then Compare(e, w.live.value, name, note.reason) else Finalize(e, w.live.value)
    ensures QuietRest(e, s) && Finish(e, Sys(w, PatchRead(name, note, adopting))) == Finish(e, s)
  {
    var o := w.live.value;
    var s0 := Sys(w, PatchRead(name, note, adopting));
    QuietStep(e, s0);
    var s1 := Step(e, s0);
    assert s1 == Sys(w.(clock := w.clock + 1), PatchWrite(o, name, note, adopting));
    QuietStep(e, s1);
    s := Step(e, s1);
  }

  lemma QuietStore(e: Env, w: World, p: Pass, name: string)
    requires WellFormed(w) && w.live.Some? && QuietRest(e, Sys(w, p))
    requires NameOf(e, w.live.value.spec.json) == Some(name)
    requires match p
             case Post(copy, n) => copy == w.live.value && n == name
             case Put(copy, n, _) => copy == w.live.value && n == name
             case _ => false
    ensures var r := Finish(e, Sys(w, p)).world;
            WellFormed(r) && Abs(r) == FinalStage(e, Stored(Abs(w), name), name, false)
  {
    var s0 := Sys(w, p);
    QuietStep(e, s0);
    var s1 := Step(e, s0);
    assert s1.pass.PatchRead? && !s1.pass.adopting;
    var s2 := QuietPatch(e, s1.world, name, s1.pass.note, false);
    QuietFinalStage(e, s2.world, w.live.value, name);
  }

  lemma QuietAdopt(e: Env, w: World, name: string, note: Note)
    requires Lawful(e.codec) && WellFormed(w) && w.live.Some? && w.live.value.status.currentJson == ""
    requires QuietRest(e, Sys(w, PatchRead(name, note, true)))
    ensures var r := Finish(e, Sys(w, PatchRead(name, note, true))).world;
            WellFormed(r) && Abs(r) == Abs(w).(recorded := w.live.value.spec.json)
  {
    var s := QuietPatch(e, w, name, note, true);
    assert IsEqualJson(e.codec, "", w.live.value.spec.json) == None;
  }

  lemma QuietCompare(e: Env, w: World, name: string, found: string)
    requires WellFormed(w) && w.live.Some? && NameOf(e, w.live.value.spec.json) == Some(name)
    requires QuietRest(e, Sys(w, Compare(e, w.live.value, name, found)))
    ensures var r, b := Finish(e, Sys(w, Compare(e, w.live.value, name, found))).world, Abs(w);
            && WellFormed(r)
            && Abs(r) == match IsEqualJson(e.codec, b.recorded, b.spec.json)
                         case None => b
                         case Some(same) =>
                           if same then FinalStage(e, b, name, true) else FinalStage(e, Stored(b, name), name, false)
  {
    var o := w.live.value;
    match IsEqualJson(e.codec, o.status.currentJson, o.spec.json)
    case None =>
    case Some(same) =>
      if same { QuietFinalStage(e, w, o, name); } else { QuietStore(e, w, Put(o, name, found), name); }
  }

  lemma QuietGet(e: Env, w: World, name: string)
    requires Lawful(e.codec) && WellFormed(w) && w.live.Some?
    requires NameOf(e, w.live.value.spec.json) == Some(name)
    requires QuietRest(e, Sys(w, Get(w.live.value, name)))
    ensures var r := Finish(e, Sys(w, Get(w.live.value, name))).world;
            WellFormed(r) && Abs(r) == QuietNext(e, Abs(w))
  {
    var o := w.live.value;
    var s0 := Sys(w, Get(o, name));
    QuietStep(e, s0);
    var s1 := Step(e, s0);
    assert Abs(s1.world) == Abs(w) && s1.world.live == w.live;
    if name !in w.pinot {
      QuietStore(e, s1.world, s1.pass, name);
    } else if !e.kind.Tenant? && o.status.currentJson == "" {
      QuietAdopt(e, s1.world, name, s1.pass.note);
    } else {
      QuietCompare(e, s1.world, name, ReplyOf(e, w).body);
    }
  }

  /** The fast form: one quiet pass, some ten calls long, is one application of `QuietNext`. */
  lemma QuietPassIsQuietNext(e: Env, w: World)
    requires Lawful(e.codec) && WellFormed(w) && QuietPass(e, w)
    ensures WellFormed(Reconcile(e, w)) && Abs(Reconcile(e, w)) == QuietNext(e, Abs(w))
  {
    var w0 := w.(tally := NOTHING);
    QuietArrive(e, w0);
    var s1 := Step(e, Sys(w, Idle));
    if w.live.Some? {
      assert s1 == Sys(w0.(clock := w.clock + 1), Lookup(w.live.value));
      QuietStep(e, s1);
      var s2 := Step(e, s1);
      if s2.pass.Get? { QuietGet(e, s2.world, s2.pass.name); }
    }
  }
}
