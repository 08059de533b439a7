/** What one whole reconcile does when nobody interferes and every write succeeds, for every object and
    every answer of Pinot: the stored object field by field, Pinot, and what was sent. */
module PassOutcomes {
  import opened Json
  import opened Protocol
  import opened Safety

  // ------------------------------------------------------------------ undisturbed passes

  /** From call `i` on nobody interferes, reads are fresh and writes succeed. Pinot may answer anything. */
  ghost predicate Alone(e: Env, i: nat) {
    forall j: nat | j >= i :: e.tape(j).before == [] && e.tape(j).read.Fresh? && e.tape(j).write.Done?
  }

  /** An undisturbed pass over the live object `o`, which names the entity `name`. */
  ghost predicate PassOver(e: Env, w: World, o: CR, name: string) {
    WellFormed(w) && w.live == Some(o) && Alone(e, w.clock) && NameOf(e, o.spec.json) == Some(name)
  }

  /** The answer to the GET, which is the third call of a pass. */
  function GetReply(e: Env, w: World): Reply { e.tape(w.clock + 2).reply }

  /** The answer to a POST or PUT, the fourth call. */
  function SendReply(e: Env, w: World): Reply { e.tape(w.clock + 3).reply }

  lemma Walk(e: Env, s: Sys)
    requires |s.world.past| > 0 && !s.pass.Idle? && Alone(e, s.world.clock)
    ensures Finish(e, s) == Finish(e, Step(e, s))
    ensures Arrive(e, s.world) == s.world.(clock := s.world.clock + 1)
  {
  }

  lemma ToTheGet(e: Env, w: World, o: CR, name: string)
    requires PassOver(e, w, o, name)
    ensures Reconcile(e, w) == Finish(e, Sys(w.(tally := NOTHING, clock := w.clock + 2), Get(o, name))).world
  {
    var w0 := w.(tally := NOTHING);
    assert Arrive(e, w0) == w0.(clock := w.clock + 1);
    var s1 := Sys(w0.(clock := w.clock + 1), Lookup(o));
    assert Step(e, Sys(w, Idle)) == s1;
    Walk(e, s1);
    assert Step(e, s1) == Sys(w0.(clock := w.clock + 2), Get(o, name));
  }

  lemma PastTheGet(e: Env, w: World, o: CR, name: string)
    requires PassOver(e, w, o, name)
    ensures Reconcile(e, w)
         == Finish(e, Sys(w.(tally := NOTHING, clock := w.clock + 3), AfterGet(e, o, name, GetReply(e, w)))).world
  {
    ToTheGet(e, w, o, name);
    Walk(e, Sys(w.(tally := NOTHING, clock := w.clock + 2), Get(o, name)));
    GetStep(e, w.(tally := NOTHING, clock := w.clock + 2), o, name);
  }

  lemma GetStep(e: Env, w: World, o: CR, name: string)
    requires |w.past| > 0 && e.tape(w.clock).before == []
    ensures Step(e, Sys(w, Get(o, name))) == Sys(w.(clock := w.clock + 1), AfterGet(e, o, name, e.tape(w.clock).reply))
  {
  }

  // ------------------------------------------------------------------ the finalizer stage

  predicate Marked(e: Env, o: CR) { o.deleting && Finalizer(e) in o.finalizers }

  /** What a DELETE for `name` that is answered by `r` leaves in Pinot. */
  function Dropped(pinot: map<string, string>, name: string, r: Reply): map<string, string> {
    if r == Lost(true) || (r.Answer? && r.code == 200) then pinot - {name} else pinot
  }

  lemma FinalNothing(e: Env, w: World, o: CR)
    requires |w.past| > 0 && o.deleting == (Finalizer(e) !in o.finalizers)
    ensures Finish(e, Sys(w, Finalize(e, o))).world == w
  {
  }

  lemma FinalAdds(e: Env, w: World, o: CR)
    requires WellFormed(w) && w.live == Some(o) && Alone(e, w.clock)
    requires !o.deleting && Finalizer(e) !in o.finalizers
    ensures var r, o' := Finish(e, Sys(w, Finalize(e, o))).world,
                         o.(finalizers := o.finalizers + [Finalizer(e)], version := o.version + 1);
            && r.past == w.past + [o'] && r.live == Some(o') && r.pinot == w.pinot && r.deletes == w.deletes
            && r.tally == w.tally.(finalizerWrites := w.tally.finalizerWrites + 1)
  {
    Walk(e, Sys(w, AddFinalizer(o)));
  }

  /** The world once the DELETE for `name` has been sent, and perhaps answered, at call `w.clock + 1`. */
  function Asked(e: Env, w: World, name: string): World {
    var r := e.tape(w.clock + 1).reply;
    w.(clock := w.clock + 2, pinot := Dropped(w.pinot, name, r), deletes := w.deletes + [DeleteRecord(name, true, r.Answer?)])
  }

  lemma ToTheDelete(e: Env, w: World, o: CR, name: string)
    requires |w.past| > 0 && Alone(e, w.clock) && Marked(e, o) && NameOf(e, o.spec.json) == Some(name)
    ensures Finish(e, Sys(w, Finalize(e, o))) == Finish(e, Sys(w.(clock := w.clock + 1), Delete(o, name)))
  {
    var s := Sys(w, LookupAgain(o));
    Walk(e, s);
    assert Step(e, s) == Sys(w.(clock := w.clock + 1), Delete(o, name));
  }

  lemma DeleteStep(e: Env, w: World, o: CR, name: string)
    requires |w.past| > 0 && Alone(e, w.clock) && Latest(w).deleting
    ensures Step(e, Sys(w.(clock := w.clock + 1), Delete(o, name)))
         == Sys(Asked(e, w, name), if e.tape(w.clock + 1).reply.Answer? then RemoveFinalizer(o) else Idle)
  {
  }

  /** The three calls of a deletion up to its answer. */
  lemma ToTheAnswer(e: Env, w: World, o: CR, name: string)
    requires |w.past| > 0 && Alone(e, w.clock) && Marked(e, o) && NameOf(e, o.spec.json) == Some(name)
    requires Latest(w).deleting
    ensures Finish(e, Sys(w, Finalize(e, o)))
         == Finish(e, Sys(Asked(e, w, name), if e.tape(w.clock + 1).reply.Answer? then RemoveFinalizer(o) else Idle))
  {
    ToTheDelete(e, w, o, name);
    Walk(e, Sys(w.(clock := w.clock + 1), Delete(o, name)));
    DeleteStep(e, w, o, name);
  }

  /** The world once our finalizer is taken off the live object `o`. */
  function Released(e: Env, w: World, o: CR): World
    requires |w.past| > 0
  {
    var o' := o.(finalizers := Without(o.finalizers, Finalizer(e)), version := o.version + 1);
    w.(past := w.past + [o'], live := if o'.finalizers == [] then None else Some(o'),
       tally := w.tally.(finalizerWrites := w.tally.finalizerWrites + 1), clock := w.clock + 1)
  }

  lemma RemovalReleases(e: Env, w: World, o: CR)
    requires WellFormed(w) && w.live == Some(o) && Alone(e, w.clock) && o.deleting
    ensures Finish(e, Sys(w, RemoveFinalizer(o))).world == Released(e, w, o)
  {
    Walk(e, Sys(w, RemoveFinalizer(o)));
  }

  /** An update from a copy of another version is refused. */
  lemma UpdateRefused(e: Env, w: World, p: Pass)
    requires |w.past| > 0 && w.live.Some? && Alone(e, w.clock) && (p.AddFinalizer? || p.RemoveFinalizer?)
    requires p.copy.version != w.live.value.version
    ensures Finish(e, Sys(w, p)).world == w.(clock := w.clock + 1)
  {
    Walk(e, Sys(w, p));
  }

  lemma FinalReleases(e: Env, w: World, o: CR, name: string)
    requires WellFormed(w) && w.live == Some(o) && Alone(e, w.clock) && Marked(e, o)
    requires NameOf(e, o.spec.json) == Some(name) && e.tape(w.clock + 1).reply.Answer?
    ensures Finish(e, Sys(w, Finalize(e, o))).world == Released(e, Asked(e, w, name), o)
  {
    ToTheAnswer(e, w, o, name);
    AskedIsWellFormed(e, w, name);
    RemovalReleases(e, Asked(e, w, name), o);
  }

  lemma AskedIsWellFormed(e: Env, w: World, name: string)
    requires WellFormed(w) && Alone(e, w.clock)
    ensures WellFormed(Asked(e, w, name)) && Alone(e, Asked(e, w, name).clock)
  {
  }

  lemma FinalUnanswered(e: Env, w: World, o: CR, name: string)
    requires |w.past| > 0 && Latest(w).deleting && Alone(e, w.clock) && Marked(e, o)
    requires NameOf(e, o.spec.json) == Some(name) && e.tape(w.clock + 1).reply.Lost?
    ensures Finish(e, Sys(w, Finalize(e, o))).world == Asked(e, w, name)
  {
    ToTheAnswer(e, w, o, name);
  }

  lemma OutdatedAsks(e: Env, w: World, o: CR, name: string)
    requires |w.past| > 0 && w.live.Some? && Alone(e, w.clock) && NameOf(e, o.spec.json) == Some(name)
    requires w.live.value.version != o.version && Latest(w).deleting && Marked(e, o)
    ensures var r := Finish(e, Sys(w, Finalize(e, o))).world;
            r.(clock := 0) == Asked(e, w, name).(clock := 0)
  {
    ToTheAnswer(e, w, o, name);
    if e.tape(w.clock + 1).reply.Answer? { UpdateRefused(e, Asked(e, w, name), RemoveFinalizer(o)); }
  }

  /** The finalizer stage on a copy that a status write has outdated: a marked object's entity gets its
      DELETE, but no update is accepted. */
  lemma FinalOutdated(e: Env, w: World, o: CR, name: string)
    requires WellFormed(w) && w.live.Some? && Alone(e, w.clock) && NameOf(e, o.spec.json) == Some(name)
    requires w.live.value.version != o.version && w.live.value.deleting == o.deleting
    ensures var r := Finish(e, Sys(w, Finalize(e, o))).world;
            r.(clock := 0) == (if Marked(e, o) then Asked(e, w, name) else w).(clock := 0)
  {
    if Marked(e, o) {
      OutdatedAsks(e, w, o, name);
    } else if !o.deleting && Finalizer(e) !in o.finalizers {
      UpdateRefused(e, w, AddFinalizer(o));
    } else {
      FinalNothing(e, w, o);
    }
  }

  lemma {:induction false} WithoutCount(fs: seq<string>, f: string, g: string)
    ensures multiset(Without(fs, f))[g] == if g == f then 0 else multiset(fs)[g]
  {
    if fs != [] {
      WithoutCount(fs[1..], f, g);
      assert fs == [fs[0]] + fs[1..];
    }
  }

  lemma WithoutCounts(fs: seq<string>, f: string)
    ensures multiset(Without(fs, f)) == multiset(fs)[f := 0]
  {
    forall g
      ensures multiset(Without(fs, f))[g] == multiset(fs)[f := 0][g]
    {
      WithoutCount(fs, f, g);
    }
  }

  // ------------------------------------------------------------------ passes that go straight to the finalizers

  /** The GET is answered and leads to nothing: schemas and tenants with a code other than 200 and 404, and
      every kind with an entity that is there and recorded as wanted. */
  predicate StraightOn(e: Env, w: World, o: CR) {
    var r := GetReply(e, w);
    && r.Answer?
    && match e.kind
       case Table => r.body != "{}" && IsEqualJson(e.codec, o.status.currentJson, o.spec.json) == Some(true)
       case _ =>
         || (r.code != 200 && r.code != 404)
         || (r.code == 200 && IsEqualJson(e.codec, o.status.currentJson, o.spec.json) == Some(true))
  }

  lemma GoesStraightOn(e: Env, w: World, o: CR, name: string)
    requires Lawful(e.codec) && PassOver(e, w, o, name) && StraightOn(e, w, o)
    ensures Reconcile(e, w) == Finish(e, Sys(w.(tally := NOTHING, clock := w.clock + 3), Finalize(e, o))).world
  {
    PastTheGet(e, w, o, name);
    assert o.status.currentJson == "" ==> IsEqualJson(e.codec, o.status.currentJson, o.spec.json) == None;
  }

  /** Such a pass over an object that is not marked only registers the finalizer, at the end of the list,
      if it is missing; over a marked object without the finalizer it does nothing. */
  lemma StraightOnRegisters(e: Env, w: World, o: CR, name: string)
    requires Lawful(e.codec) && PassOver(e, w, o, name) && StraightOn(e, w, o) && !Marked(e, o)
    ensures var r := Reconcile(e, w);
            && r.pinot == w.pinot && r.deletes == w.deletes
            && r.tally.posts == 0 && r.tally.puts == 0 && r.tally.statusWrites == 0
            && (if !o.deleting && Finalizer(e) !in o.finalizers
                then r.live == Some(o.(finalizers := o.finalizers + [Finalizer(e)], version := o.version + 1))
                else r.live == w.live && r.past == w.past && r.tally.finalizerWrites == 0)
  {
    GoesStraightOn(e, w, o, name);
    var w1 := w.(tally := NOTHING, clock := w.clock + 3);
    if !o.deleting && Finalizer(e) !in o.finalizers { FinalAdds(e, w1, o); } else { FinalNothing(e, w1, o); }
  }

  /** How the finalizer stage ends for a marked object whose copy is up to date, `reply` answering the DELETE. */
  predicate LosesFinalizer(e: Env, w: World, o: CR, name: string, reply: Reply, r: World) {
    && r.pinot == Dropped(w.pinot, name, reply)
    && r.deletes == w.deletes + [DeleteRecord(name, true, reply.Answer?)]
    && (reply.Lost? ==> r.live == w.live && r.past == w.past)
    && (reply.Answer? ==>
          |r.past| == |w.past| + 1 &&
          var o' := r.past[|r.past| - 1];
          && o' == o.(finalizers := o'.finalizers, version := o.version + 1)
          && multiset(o'.finalizers) == multiset(o.finalizers)[Finalizer(e) := 0]
          && r.live == (if o'.finalizers == [] then None else Some(o')))
  }

  lemma MarkedEnds(e: Env, w: World, w1: World, o: CR, name: string)
    requires WellFormed(w1) && w1.live == Some(o) && Alone(e, w1.clock) && Marked(e, o)
    requires NameOf(e, o.spec.json) == Some(name)
    requires w1.past == w.past && w1.live == w.live && w1.pinot == w.pinot && w1.deletes == w.deletes
    ensures var r := Finish(e, Sys(w1, Finalize(e, o))).world;
            && LosesFinalizer(e, w, o, name, e.tape(w1.clock + 1).reply, r)
            && r.tally == if e.tape(w1.clock + 1).reply.Answer?
                          then w1.tally.(finalizerWrites := w1.tally.finalizerWrites + 1) else w1.tally
  {
    if e.tape(w1.clock + 1).reply.Answer? {
      FinalReleases(e, w1, o, name);
      ReleasedFields(e, w, w1, o, name, Released(e, Asked(e, w1, name), o));
    } else {
      FinalUnanswered(e, w1, o, name);
    }
  }

  lemma ReleasedFields(e: Env, w: World, w1: World, o: CR, name: string, r: World)
    requires |w1.past| > 0 && w1.past == w.past && w1.live == w.live && w1.pinot == w.pinot && w1.deletes == w.deletes
    requires e.tape(w1.clock + 1).reply.Answer? && r == Released(e, Asked(e, w1, name), o)
    ensures LosesFinalizer(e, w, o, name, e.tape(w1.clock + 1).reply, r)
    ensures r.tally == w1.tally.(finalizerWrites := w1.tally.finalizerWrites + 1)
  {
    var o' := o.(finalizers := Without(o.finalizers, Finalizer(e)), version := o.version + 1);
    WithoutCounts(o.finalizers, Finalizer(e));
    assert r.past == w.past + [o'];
    assert r.past[|r.past| - 1] == o' && |r.past| == |w.past| + 1;
  }

  /** Such a pass over a marked object that holds the finalizer sends the DELETE. Whatever code answers
      it, the object loses exactly our finalizer and goes if that was the last one, and the entity stays
      in Pinot exactly if the code is not 200. If no answer comes, the finalizer stays. */
  lemma StraightOnReleases(e: Env, w: World, o: CR, name: string)
    requires Lawful(e.codec) && PassOver(e, w, o, name) && StraightOn(e, w, o) && Marked(e, o)
    ensures var r, reply := Reconcile(e, w), e.tape(w.clock + 4).reply;
            && r.tally.posts == 0 && r.tally.puts == 0 && r.tally.statusWrites == 0
            && r.deletes == w.deletes + [DeleteRecord(name, true, reply.Answer?)]
            && (reply.Answer? ==> (name in r.pinot <==> name in w.pinot && reply.code != 200))
            && (reply.Lost? ==> r.live == w.live && r.past == w.past)
    ensures e.tape(w.clock + 4).reply.Answer? ==>
              var r := Reconcile(e, w);
              |r.past| == |w.past| + 1 &&
              var o' := r.past[|r.past| - 1];
              && o' == o.(finalizers := o'.finalizers, version := o.version + 1)
              && multiset(o'.finalizers) == multiset(o.finalizers)[Finalizer(e) := 0]
              && r.live == (if o'.finalizers == [] then None else Some(o'))
  {
    GoesStraightOn(e, w, o, name);
    MarkedEnds(e, w, w.(tally := NOTHING, clock := w.clock + 3), o, name);
    if e.tape(w.clock + 4).reply.Answer? { EntityDropped(w.pinot, name, e.tape(w.clock + 4).reply); }
  }

  lemma EntityDropped(pinot: map<string, string>, name: string, r: Reply)
    requires r.Answer?
    ensures name in Dropped(pinot, name, r) <==> name in pinot && r.code != 200
  {
  }

  // ------------------------------------------------------------------ passes that write the status

  /** Pinot reports the entity as absent, in the way each controller understands it. */
  predicate SaysAbsent(k: Kind, r: Reply) {
    r.Answer? && match k case Table => r.body == "{}" case _ => r.code == 404
  }

  predicate SaysPresent(k: Kind, r: Reply) {
    r.Answer? && match k case Table => r.body != "{}" case _ => r.code == 200
  }

  /** The world after a status write from the live object `o`. */
  function Noticed(e: Env, w: World, o: CR, note: Note): World
    requires |w.past| > 0
  {
    var o' := o.(status := Stamp(e.kind, o, note, e.tape(w.clock + 1).now), version := o.version + 1);
    w.(past := w.past + [o'], live := Some(o'), clock := w.clock + 2,
       tally := w.tally.(statusWrites := w.tally.statusWrites + 1))
  }

  lemma StatusStep(e: Env, w: World, o: CR, name: string, note: Note, adopting: bool)
    requires WellFormed(w) && w.live == Some(o) && Alone(e, w.clock)
    ensures Step(e, Sys(w.(clock := w.clock + 1), PatchWrite(o, name, note, adopting)))
         == Sys(Noticed(e, w, o, note), if adopting then Compare(e, o, name, note.reason) else Finalize(e, o))
  {
  }

  lemma ToTheStatus(e: Env, w: World, o: CR, name: string, note: Note, adopting: bool)
    requires WellFormed(w) && w.live == Some(o) && Alone(e, w.clock)
    ensures Finish(e, Sys(w, PatchRead(name, note, adopting)))
         == Finish(e, Sys(Noticed(e, w, o, note), if adopting then Compare(e, o, name, note.reason) else Finalize(e, o)))
  {
    var s0, s1 := Sys(w, PatchRead(name, note, adopting)), Sys(w.(clock := w.clock + 1), PatchWrite(o, name, note, adopting));
    Walk(e, s0);
    assert Step(e, s0) == s1;
    Walk(e, s1);
    StatusStep(e, w, o, name, note, adopting);
  }

  /** A status write and the finalizer stage after it, on a copy that is out of date by then. */
  lemma WritesStatus(e: Env, w: World, o: CR, name: string, note: Note)
    requires WellFormed(w) && w.live == Some(o) && Alone(e, w.clock) && NameOf(e, o.spec.json) == Some(name)
    ensures var r, w2 := Finish(e, Sys(w, PatchRead(name, note, false))).world, Noticed(e, w, o, note);
            r.(clock := 0) == (if Marked(e, o) then Asked(e, w2, name) else w2).(clock := 0)
  {
    ToTheStatus(e, w, o, name, note, false);
    NoticedIsWellFormed(e, w, o, note);
    FinalOutdated(e, Noticed(e, w, o, note), o, name);
  }

  lemma NoticedIsWellFormed(e: Env, w: World, o: CR, note: Note)
    requires WellFormed(w) && w.live == Some(o)
    ensures WellFormed(Noticed(e, w, o, note))
  {
  }

  /** The world after the POST, at the fourth call. */
  function Posted(e: Env, w: World, o: CR, name: string): World {
    w.(clock := w.clock + 4, tally := Tally(0, 0, 1, 0, 0),
       pinot := if Applied(SendReply(e, w)) then w.pinot[name := o.spec.json] else w.pinot)
  }

  lemma PostStep(e: Env, w: World, o: CR, name: string)
    requires |w.past| > 0 && Alone(e, w.clock)
    ensures Step(e, Sys(w.(tally := NOTHING, clock := w.clock + 3), Post(o, name)))
         == Sys(Posted(e, w, o, name),
                if SendReply(e, w).Lost? then Idle else PatchRead(name, CreateNote(e.kind, SendReply(e, w)), false))
  {
  }

  lemma PastThePost(e: Env, w: World, o: CR, name: string)
    requires PassOver(e, w, o, name) && SaysAbsent(e.kind, GetReply(e, w))
    ensures Reconcile(e, w)
         == Finish(e, Sys(Posted(e, w, o, name),
                          if SendReply(e, w).Lost? then Idle else PatchRead(name, CreateNote(e.kind, SendReply(e, w)), false))).world
  {
    PastTheGet(e, w, o, name);
    assert AfterGet(e, o, name, GetReply(e, w)) == Post(o, name);
    Walk(e, Sys(w.(tally := NOTHING, clock := w.clock + 3), Post(o, name)));
    PostStep(e, w, o, name);
  }

  /** The status `st` that a pass over `o` leaves. */
  predicate Tells(e: Env, o: CR, st: Status, message: string, reason: string, conditionType: string, now: nat) {
    && st.currentJson == o.spec.json
    && st.message == message
    && st.reason == reason
    && st.conditionType == conditionType
    && st.condition == "True"
    && st.lastUpdateTime == now
    && st.reloadStatus == (if e.kind.Table? then Some([]) else o.status.reloadStatus)
  }

  /** How a pass ends that sent a request and recorded the outcome: `stored` is what Pinot held then. */
  predicate EndsAfterStatus(e: Env, w: World, o: CR, name: string, stored: map<string, string>, r: World) {
    var reply := e.tape(w.clock + 7).reply;
    && r.live.Some? && r.past == w.past + [r.live.value]
    && r.live.value == o.(status := r.live.value.status, version := o.version + 1)
    && r.pinot == (if Marked(e, o) then Dropped(stored, name, reply) else stored)
    && r.deletes == (if Marked(e, o) then w.deletes + [DeleteRecord(name, true, reply.Answer?)] else w.deletes)
  }

  lemma StatusEnds(e: Env, w: World, w1: World, o: CR, name: string, note: Note)
    requires WellFormed(w1) && w1.live == Some(o) && Alone(e, w1.clock) && NameOf(e, o.spec.json) == Some(name)
    requires w1.clock == w.clock + 4 && w1.past == w.past && w1.deletes == w.deletes
    ensures var r := Finish(e, Sys(w1, PatchRead(name, note, false))).world;
            && EndsAfterStatus(e, w, o, name, w1.pinot, r)
            && r.live.value.status == Stamp(e.kind, o, note, e.tape(w.clock + 5).now)
            && r.tally == w1.tally.(statusWrites := w1.tally.statusWrites + 1)
  {
    WritesStatus(e, w1, o, name, note);
    StatusEndFields(e, w, w1, o, name, note, Finish(e, Sys(w1, PatchRead(name, note, false))).world);
  }

  lemma StatusEndFields(e: Env, w: World, w1: World, o: CR, name: string, note: Note, r: World)
    requires |w1.past| > 0 && w1.clock == w.clock + 4 && w1.past == w.past && w1.deletes == w.deletes
    requires r.(clock := 0) == (if Marked(e, o) then Asked(e, Noticed(e, w1, o, note), name) else Noticed(e, w1, o, note)).(clock := 0)
    ensures EndsAfterStatus(e, w, o, name, w1.pinot, r)
    ensures r.live.value.status == Stamp(e.kind, o, note, e.tape(w.clock + 5).now)
    ensures r.tally == w1.tally.(statusWrites := w1.tally.statusWrites + 1)
  {
  }

  /** A creation that Pinot answers. The status tells the answer's body as the reason, and success as the
      message, for tables even if Pinot refused. No finalizer is registered or removed; the entity of a
      marked object gets its DELETE all the same. */
  lemma CreationOutcome(e: Env, w: World, o: CR, name: string)
    requires PassOver(e, w, o, name) && SaysAbsent(e.kind, GetReply(e, w)) && SendReply(e, w).Answer?
    ensures var reply := SendReply(e, w);
            EndsAfterStatus(e, w, o, name, if reply.code == 200 then w.pinot[name := o.spec.json] else w.pinot, Reconcile(e, w))
    ensures var r, reply := Reconcile(e, w), SendReply(e, w);
            var message := if reply.code == 200 || e.kind.Table? then CreateSuccess(e.kind) else CreateFail(e.kind);
            Tells(e, o, r.live.value.status, message, reply.body, message, e.tape(w.clock + 5).now)
    ensures Reconcile(e, w).tally == Tally(1, 0, 1, 0, 0)
  {
    PastThePost(e, w, o, name);
    StatusEnds(e, w, Posted(e, w, o, name), o, name, CreateNote(e.kind, SendReply(e, w)));
  }

  /** The world after the PUT, at the fourth call. */
  function Replaced(e: Env, w: World, o: CR, name: string): World {
    var r := SendReply(e, w);
    w.(clock := w.clock + 4, tally := Tally(0, 0, 0, 1, if r.Answer? && r.code != 200 then 1 else 0),
       pinot := if Applied(r) then w.pinot[name := o.spec.json] else w.pinot)
  }

  /** The entity is there and the record differs from the spec. */
  predicate CallsForUpdate(e: Env, w: World, o: CR) {
    SaysPresent(e.kind, GetReply(e, w)) && IsEqualJson(e.codec, o.status.currentJson, o.spec.json) == Some(false)
  }

  lemma PutStep(e: Env, w: World, o: CR, name: string)
    requires |w.past| > 0 && Alone(e, w.clock) && GetReply(e, w).Answer?
    ensures Step(e, Sys(w.(tally := NOTHING, clock := w.clock + 3), Put(o, name, GetReply(e, w).body)))
         == Sys(Replaced(e, w, o, name), AfterPut(e, w, o, name))
  {
  }

  function AfterPut(e: Env, w: World, o: CR, name: string): Pass
    requires GetReply(e, w).Answer?
  {
    if SendReply(e, w).Lost? then Idle
    else if SendReply(e, w).code != 200 && e.kind.Tenant? then Finalize(e, o)
    else PatchRead(name, UpdateNote(e.kind, GetReply(e, w).body, SendReply(e, w)), false)
  }

  lemma PastThePut(e: Env, w: World, o: CR, name: string)
    requires Lawful(e.codec) && PassOver(e, w, o, name) && CallsForUpdate(e, w, o)
    ensures Reconcile(e, w) == Finish(e, Sys(Replaced(e, w, o, name), AfterPut(e, w, o, name))).world
  {
    PastTheGet(e, w, o, name);
    assert o.status.currentJson == "" ==> IsEqualJson(e.codec, o.status.currentJson, o.spec.json) == None;
    assert AfterGet(e, o, name, GetReply(e, w)) == Put(o, name, GetReply(e, w).body);
    Walk(e, Sys(w.(tally := NOTHING, clock := w.clock + 3), Put(o, name, GetReply(e, w).body)));
    PutStep(e, w, o, name);
  }

  /** An update that Pinot answers, except a refused one of a tenant. The reason is the answer's body,
      but for a refused update of a schema the body of the GET. */
  lemma UpdateOutcome(e: Env, w: World, o: CR, name: string)
    requires Lawful(e.codec) && PassOver(e, w, o, name) && CallsForUpdate(e, w, o)
    requires SendReply(e, w).Answer? && (e.kind.Tenant? ==> SendReply(e, w).code == 200)
    ensures var reply := SendReply(e, w);
            EndsAfterStatus(e, w, o, name, if reply.code == 200 then w.pinot[name := o.spec.json] else w.pinot, Reconcile(e, w))
    ensures var r, reply := Reconcile(e, w), SendReply(e, w);
            var message := if reply.code == 200 then UpdateSuccess(e.kind) else UpdateFail(e.kind);
            var reason := if reply.code != 200 && e.kind.Schema? then GetReply(e, w).body else reply.body;
            Tells(e, o, r.live.value.status, message, reason, message, e.tape(w.clock + 5).now)
    ensures Reconcile(e, w).tally == Tally(1, 0, 0, 1, if SendReply(e, w).code == 200 then 0 else 1)
  {
    PastThePut(e, w, o, name);
    StatusEnds(e, w, Replaced(e, w, o, name), o, name, UpdateNote(e.kind, GetReply(e, w).body, SendReply(e, w)));
  }

  /** A POST or PUT without an answer ends the pass: nothing is recorded, no finalizer is touched. */
  lemma LostSendEndsPass(e: Env, w: World, o: CR, name: string)
    requires Lawful(e.codec) && PassOver(e, w, o, name) && SendReply(e, w).Lost?
    requires SaysAbsent(e.kind, GetReply(e, w)) || CallsForUpdate(e, w, o)
    ensures var r := Reconcile(e, w);
            && r.live == w.live && r.past == w.past && r.deletes == w.deletes
            && r.pinot == (if SendReply(e, w).applied then w.pinot[name := o.spec.json] else w.pinot)
            && r.tally == if SaysAbsent(e.kind, GetReply(e, w)) then Tally(0, 0, 1, 0, 0) else Tally(0, 0, 0, 1, 0)
  {
    if SaysAbsent(e.kind, GetReply(e, w)) { PastThePost(e, w, o, name); } else { PastThePut(e, w, o, name); }
  }

  lemma AdoptionEnds(e: Env, w: World, o: CR, name: string)
    requires Lawful(e.codec) && PassOver(e, w, o, name) && !e.kind.Tenant?
    requires SaysPresent(e.kind, GetReply(e, w)) && o.status.currentJson == ""
    ensures Reconcile(e, w)
         == Noticed(e, w.(tally := NOTHING, clock := w.clock + 3), o, AdoptNote(e.kind, GetReply(e, w).body))
  {
    PastTheGet(e, w, o, name);
    var note := AdoptNote(e.kind, GetReply(e, w).body);
    assert AfterGet(e, o, name, GetReply(e, w)) == PatchRead(name, note, true);
    ToTheStatus(e, w.(tally := NOTHING, clock := w.clock + 3), o, name, note, true);
    assert IsEqualJson(e.codec, "", o.spec.json) == None;
  }

  /** A schema or table that is there without a record is adopted: the wanted JSON is recorded, with the
      GET's body as the reason, and the pass ends there, because it goes on to compare the empty record
      it had read. */
  lemma AdoptionOutcome(e: Env, w: World, o: CR, name: string)
    requires Lawful(e.codec) && PassOver(e, w, o, name) && !e.kind.Tenant?
    requires SaysPresent(e.kind, GetReply(e, w)) && o.status.currentJson == ""
    ensures var r := Reconcile(e, w);
            && r.live.Some? && r.past == w.past + [r.live.value]
            && r.live.value == o.(status := r.live.value.status, version := o.version + 1)
            && r.tally == Tally(1, 0, 0, 0, 0) && r.pinot == w.pinot && r.deletes == w.deletes
    ensures var conditionType := if e.kind.Schema? then UpdateSuccess(Schema) else CreateSuccess(Table);
            Tells(e, o, Reconcile(e, w).live.value.status, CreateSuccess(e.kind), GetReply(e, w).body, conditionType,
                  e.tape(w.clock + 4).now)
  {
    AdoptionEnds(e, w, o, name);
  }

  /** A refused update of a tenant writes no status, and the pass goes on with a copy that is still up to
      date: it registers the finalizer, or sends the DELETE and takes the finalizer off. */
  lemma TenantRefusalOutcome(e: Env, w: World, o: CR, name: string)
    requires Lawful(e.codec) && PassOver(e, w, o, name) && CallsForUpdate(e, w, o)
    requires e.kind.Tenant? && SendReply(e, w).Answer? && SendReply(e, w).code != 200
    ensures var r := Reconcile(e, w);
            && r.tally.puts == 1 && r.tally.posts == 0 && r.tally.statusWrites == 0
            && (Marked(e, o) ==> LosesFinalizer(e, w, o, name, e.tape(w.clock + 5).reply, r))
            && (!Marked(e, o) ==>
                  && r.pinot == w.pinot && r.deletes == w.deletes
                  && r.live == if !o.deleting && Finalizer(e) !in o.finalizers
                               then Some(o.(finalizers := o.finalizers + [Finalizer(e)], version := o.version + 1)) else w.live)
  {
    PastThePut(e, w, o, name);
    var w1 := Replaced(e, w, o, name);
    if Marked(e, o) {
      MarkedEnds(e, w, w1, o, name);
    } else if !o.deleting && Finalizer(e) !in o.finalizers {
      FinalAdds(e, w1, o);
    } else {
      FinalNothing(e, w1, o);
    }
  }

  // ------------------------------------------------------------------ passes that end early

  /** Nothing was committed and nothing but a GET was sent. */
  predicate NothingDone(w: World, r: World) {
    r.live == w.live && r.past == w.past && r.pinot == w.pinot && r.deletes == w.deletes && r.tally == NOTHING
  }

  predicate Fails(r: ReadOutcome) { r.Missing? || r.ReadError? }

  /** An object that cannot be read, or is not there, ends the pass. */
  lemma UnreadObjectEndsPass(e: Env, w: World)
    requires |w.past| > 0 && e.tape(w.clock).before == []
    requires Fails(e.tape(w.clock).read) || (e.tape(w.clock).read.Fresh? && w.live.None?)
    ensures NothingDone(w, Reconcile(e, w))
  {
  }

  /** So does a service or secret that cannot be read, and JSON without a readable name. */
  lemma FailedLookupEndsPass(e: Env, w: World)
    requires |w.past| > 0 && w.live.Some?
    requires e.tape(w.clock).before == [] && e.tape(w.clock).read.Fresh? && e.tape(w.clock + 1).before == []
    requires Fails(e.tape(w.clock + 1).read) || NameOf(e, w.live.value.spec.json).None?
    ensures NothingDone(w, Reconcile(e, w))
  {
    var w1 := w.(tally := NOTHING, clock := w.clock + 1);
    assert Step(e, Sys(w, Idle)) == Sys(w1, Lookup(w.live.value));
    StopsAtLookup(e, w1, w.live.value);
  }

  lemma StopsAtLookup(e: Env, w: World, o: CR)
    requires |w.past| > 0 && e.tape(w.clock).before == []
    requires Fails(e.tape(w.clock).read) || NameOf(e, o.spec.json).None?
    ensures Finish(e, Sys(w, Lookup(o))).world == w.(clock := w.clock + 1)
  {
    assert Step(e, Sys(w, Lookup(o))) == Sys(w.(clock := w.clock + 1), Idle);
  }

  /** So does a GET without an answer, and, for an entity that is there, a record that cannot be compared,
      which for tenants includes an empty one. */
  lemma UnusableAnswerEndsPass(e: Env, w: World, o: CR, name: string)
    requires PassOver(e, w, o, name)
    requires GetReply(e, w).Lost? ||
      (&& SaysPresent(e.kind, GetReply(e, w)) && IsEqualJson(e.codec, o.status.currentJson, o.spec.json) == None
       && (e.kind.Tenant? || o.status.currentJson != ""))
    ensures NothingDone(w, Reconcile(e, w))
  {
    PastTheGet(e, w, o, name);
  }

  /** A status write whose read fails writes nothing, and one whose write fails may have; either way
      the pass ends there, with no DELETE and no finalizer touched. */
  lemma FailedStatusEndsPass(e: Env, w: World, o: CR, name: string, note: Note, adopting: bool)
    requires |w.past| > 0 && w.live == Some(o) && e.tape(w.clock).before == [] && e.tape(w.clock + 1).before == []
    requires Fails(e.tape(w.clock).read) || (e.tape(w.clock).read.Fresh? && e.tape(w.clock + 1).write.Failed?)
    ensures var r := Finish(e, Sys(w, PatchRead(name, note, adopting))).world;
            && r.pinot == w.pinot && r.deletes == w.deletes && r.tally.finalizerWrites == w.tally.finalizerWrites
            && (r.past == w.past || (!Fails(e.tape(w.clock).read) && e.tape(w.clock + 1).write.applied))
  {
    if Fails(e.tape(w.clock).read) {
      FailedReadEndsPass(e, w, name, note, adopting);
    } else {
      var s, w1 := Sys(w, PatchRead(name, note, adopting)), w.(clock := w.clock + 1);
      assert Step(e, s) == Sys(w1, PatchWrite(o, name, note, adopting));
      assert Finish(e, s) == Finish(e, Sys(w1, PatchWrite(o, name, note, adopting)));
      FailedWriteEndsPass(e, w1, o, name, note, adopting);
    }
  }

  lemma FailedReadEndsPass(e: Env, w: World, name: string, note: Note, adopting: bool)
    requires |w.past| > 0 && e.tape(w.clock).before == [] && Fails(e.tape(w.clock).read)
    ensures Finish(e, Sys(w, PatchRead(name, note, adopting))).world == w.(clock := w.clock + 1)
  {
    FailedReadStep(e, w, name, note, adopting);
    EndsAfter(e, Sys(w, PatchRead(name, note, adopting)));
  }

  lemma FailedReadStep(e: Env, w: World, name: string, note: Note, adopting: bool)
    requires |w.past| > 0 && e.tape(w.clock).before == [] && Fails(e.tape(w.clock).read)
    ensures Step(e, Sys(w, PatchRead(name, note, adopting))) == Sys(w.(clock := w.clock + 1), Idle)
  {
  }

  lemma EndsAfter(e: Env, s: Sys)
    requires |s.world.past| > 0 && !s.pass.Idle? && Step(e, s).pass.Idle?
    ensures Finish(e, s) == Step(e, s)
  {
  }

  lemma FailedWriteEndsPass(e: Env, w: World, o: CR, name: string, note: Note, adopting: bool)
    requires |w.past| > 0 && w.live == Some(o) && e.tape(w.clock).before == [] && e.tape(w.clock).write.Failed?
    ensures var r := Finish(e, Sys(w, PatchWrite(o, name, note, adopting))).world;
            && r.pinot == w.pinot && r.deletes == w.deletes && r.tally.finalizerWrites == w.tally.finalizerWrites
            && (r.past == w.past || e.tape(w.clock).write.applied)
  {
    assert Step(e, Sys(w, PatchWrite(o, name, note, adopting))).pass.Idle?;
  }

  /** A deletion whose lookup fails sends no DELETE and keeps the finalizer. */
  lemma FailedLookupKeepsFinalizer(e: Env, w: World, o: CR)
    requires |w.past| > 0 && e.tape(w.clock).before == [] && Fails(e.tape(w.clock).read) && Marked(e, o)
    ensures Finish(e, Sys(w, Finalize(e, o))).world == w.(clock := w.clock + 1)
  {
    assert Step(e, Sys(w, LookupAgain(o))) == Sys(w.(clock := w.clock + 1), Idle);
  }
}
