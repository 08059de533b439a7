/** One pass that works on outdated versions of the object, nobody interfering: exactly when agreement
    between record and Pinot survives it. */
module StaleReads {
  import opened Json
  import opened Protocol
  import opened Safety
  import opened Agreement
  import opened FreshReads
  import opened Quiet

  // ------------------------------------------------------------------ any copy and any snapshot

  /** Nobody interferes, every read returns some version, every write is done, every request is
      answered, with any answer except that a DELETE succeeds. */
  predicate LagCall(e: Env, s: Sys) {
    var t := e.tape(s.world.clock);
    && t.before == []
    && (t.read.Fresh? || t.read.Stale?)
    && t.write.Done?
    && t.reply.Answer?
    && (s.pass.Delete? ==> t.reply.code == 200)
  }

  predicate LagRest(e: Env, s: Sys)
    requires |s.world.past| > 0
    decreases Remaining(s.pass)
  {
    s.pass.Idle? || (LagRest(e, Step(e, s)) && LagCall(e, s))
  }

  function Seen(w: World, r: ReadOutcome): CR
    requires w.live.Some? && (r.Fresh? || r.Stale?)
  {
    Snapshot(w, r).value
  }

  /** A status patch from snapshot `o` leaves agreement, or the pass goes on to delete the entity. */
  predicate StampKeeps(e: Env, name: string, w: World, o: CR, note: Note)
    requires w.live.Some?
  {
    StampAgrees(e.kind, name, w, o, note) || Removes(e, name, o)
  }

  /** What Pinot stores after the request of call `i`. */
  function Received(e: Env, name: string, w: World, i: nat, json: string): World {
    if Applied(e.tape(i).reply) then w.(pinot := w.pinot[name := json]) else w
  }

  /** A request with `json` at call `i`, recorded from what call `i + 1` reads. */
  predicate SentKeeps(e: Env, name: string, w: World, i: nat, json: string, note: Note) {
    var w1, r := Received(e, name, w, i, json), e.tape(i + 1).read;
    w.live.Some? && (r.Fresh? || r.Stale?) ==> StampKeeps(e, name, w1, Seen(w1, r), note)
  }

  /** An update from copy `c` at call `i`; a refused one of a tenant records nothing. */
  predicate PutKeeps(e: Env, name: string, w: World, i: nat, c: CR, found: string) {
    var r := e.tape(i).reply;
    r.Answer? ==>
      if e.kind.Tenant? && r.code != 200 then Agree(e.kind, name, w)
      else SentKeeps(e, name, w, i, c.spec.json, UpdateNote(e.kind, found, r))
  }

  function Stamped(k: Kind, w: World, o: CR, note: Note, now: nat): World
    requires |w.past| > 0 && w.live.Some?
  {
    var live := w.live.value;
    Commit(w, live.(status := MergeStatus(live.status, o.status, Stamp(k, o, note, now))))
  }

  /** Agreement after an adopting write that no PUT follows. */
  predicate AdoptStampKeeps(e: Env, name: string, w: World, o: CR, note: Note)
    requires w.live.Some?
  {
    if Compare(e, o, name, note.reason).LookupAgain? then StampKeeps(e, name, w, o, note)
    else StampAgrees(e.kind, name, w, o, note)
  }

  /** An adoption from snapshot `o`, read at call `i`. */
  predicate AdoptedKeeps(e: Env, name: string, w: World, i: nat, o: CR, found: string)
    requires |w.past| > 0 && w.live.Some?
  {
    var note := AdoptNote(e.kind, found);
    if Compare(e, o, name, found).Put?
    then PutKeeps(e, name, Stamped(e.kind, w, o, note, e.tape(i + 1).now), i + 2, o, found)
    else AdoptStampKeeps(e, name, w, o, note)
  }

  /** An adoption that reads at call `i`, writes at call `i + 1` and may then update from what it read. */
  predicate AdoptKeeps(e: Env, name: string, w: World, i: nat, found: string)
    requires |w.past| > 0
  {
    var r := e.tape(i).read;
    w.live.Some? && (r.Fresh? || r.Stale?) ==> AdoptedKeeps(e, name, w, i, Seen(w, r), found)
  }

  /** The whole pass from its GET at call `i`, working on copy `c`. */
  predicate Keeps(e: Env, name: string, w: World, i: nat, c: CR)
    requires |w.past| > 0
  {
    match AfterGet(e, c, name, e.tape(i).reply)
    case Post(_, _) =>
      e.tape(i + 1).reply.Answer? ==>
        SentKeeps(e, name, w, i + 1, c.spec.json, CreateNote(e.kind, e.tape(i + 1).reply))
    case PatchRead(_, note, _) => AdoptKeeps(e, name, w, i + 1, note.reason)
    case Put(_, _, found) => PutKeeps(e, name, w, i + 1, c, found)
    case _ => Agree(e.kind, name, w)
  }

  /** What the conditions look at: a world without clock and logs. */
  function Bare(w: World): World { w.(clock := 0, tally := NOTHING, deletes := []) }

  // ------------------------------------------------------------------ one pass, call by call

  lemma LagStep(e: Env, s: Sys)
    requires WellFormed(s.world) && !s.pass.Idle? && LagRest(e, s)
    ensures LagCall(e, s) && LagRest(e, Step(e, s)) && WellFormed(Step(e, s).world)
    ensures Finish(e, s) == Finish(e, Step(e, s))
    ensures Arrive(e, s.world) == s.world.(clock := s.world.clock + 1)
  {
    QuietArrive(e, s.world);
    StepExtends(e, s);
  }

  predicate AtTheEnd(p: Pass) { p.Idle? || InFinalizerStage(p) }

  /** In the finalizer stage a pass that may still owe agreement brings it about. */
  lemma {:induction false} TrackedEnds(e: Env, name: string, s: Sys)
    requires WellFormed(s.world) && AtTheEnd(s.pass) && LagRest(e, s) && Tracks(e, name, s)
    ensures Agree(e.kind, name, Finish(e, s).world)
    decreases Remaining(s.pass)
  {
    if !s.pass.Idle? {
      LagStep(e, s);
      CallDecides(e, name, s);
      TrackedEnds(e, name, Step(e, s));
    }
  }

  lemma {:induction false} BrokenEnds(e: Env, name: string, s: Sys)
    requires WellFormed(s.world) && AtTheEnd(s.pass) && LagRest(e, s) && Broken(e, name, s)
    ensures Finish(e, s).world.live.Some? ==> !Agree(e.kind, name, Finish(e, s).world)
    decreases Remaining(s.pass)
  {
    if !s.pass.Idle? {
      LagStep(e, s);
      BrokenStaysBroken(e, name, s);
      BrokenEnds(e, name, Step(e, s));
    }
  }

  /** Updates from a copy that is out of date are refused. */
  lemma {:induction false} OutdatedEndsLive(e: Env, s: Sys)
    requires WellFormed(s.world) && AtTheEnd(s.pass) && LagRest(e, s) && s.world.live.Some?
    requires CopyOf(s.pass).Some? ==> CopyOf(s.pass).value.version != s.world.live.value.version
    ensures Finish(e, s).world.live.Some?
    decreases Remaining(s.pass)
  {
    if !s.pass.Idle? {
      LagStep(e, s);
      OutdatedEndsLive(e, Step(e, s));
    }
  }

  lemma StampHarmless(e: Env, name: string, w: World, o: CR, note: Note)
    requires WellFormed(w) && w.live.Some? && o in w.past
    requires LagRest(e, Sys(w, PatchWrite(o, name, note, false)))
    ensures var s := Sys(w, PatchWrite(o, name, note, false));
            && (Harmless(e, name, s) <==> StampKeeps(e, name, w, o, note))
            && Step(e, s).pass == Finalize(e, o)
            && Step(e, s).world.live.Some? && Step(e, s).world.live.value.version != o.version
  {
    LagStep(e, Sys(w, PatchWrite(o, name, note, false)));
    KnownVersion(w, o);
  }

  lemma EndDecides(e: Env, name: string, s: Sys, keeps: bool)
    requires WellFormed(s.world) && AtTheEnd(s.pass) && LagRest(e, s) && s.world.live.Some?
    requires CopyOf(s.pass).Some? ==> CopyOf(s.pass).value.version != s.world.live.value.version
    requires if keeps then Tracks(e, name, s) else Broken(e, name, s)
    ensures Agree(e.kind, name, Finish(e, s).world) <==> keeps
  {
    OutdatedEndsLive(e, s);
    if keeps { TrackedEnds(e, name, s); } else { BrokenEnds(e, name, s); }
  }

  /** A pass that is about to write the status from snapshot `o`, and then only has the finalizer stage. */
  lemma StampDecidesPass(e: Env, name: string, w: World, o: CR, note: Note)
    requires WellFormed(w) && w.live.Some? && o in w.past
    requires LagRest(e, Sys(w, PatchWrite(o, name, note, false)))
    ensures Agree(e.kind, name, Finish(e, Sys(w, PatchWrite(o, name, note, false))).world) <==>
            StampKeeps(e, name, w, o, note)
  {
    var s := Sys(w, PatchWrite(o, name, note, false));
    LagStep(e, s);
    StampHarmless(e, name, w, o, note);
    CallDecides(e, name, s);
    EndDecides(e, name, Step(e, s), StampKeeps(e, name, w, o, note));
  }

  lemma BareStamp(e: Env, name: string, w: World, r: ReadOutcome, note: Note)
    requires w.live.Some? && (r.Fresh? || r.Stale?)
    ensures StampKeeps(e, name, w, Seen(w, r), note) <==> StampKeeps(e, name, Bare(w), Seen(Bare(w), r), note)
    ensures Seen(Bare(w), r) == Seen(w, r)
  {
  }

  /** A status write from whatever version is read. */
  lemma PatchDecidesPass(e: Env, name: string, w: World, note: Note)
    requires WellFormed(w) && w.live.Some? && LagRest(e, Sys(w, PatchRead(name, note, false)))
    ensures var r := e.tape(w.clock).read;
            && (r.Fresh? || r.Stale?)
            && (Agree(e.kind, name, Finish(e, Sys(w, PatchRead(name, note, false))).world) <==>
                StampKeeps(e, name, Bare(w), Seen(Bare(w), r), note))
  {
    var s, w1 := Sys(w, PatchRead(name, note, false)), w.(clock := w.clock + 1);
    LagStep(e, s);
    var o := Seen(w, e.tape(w.clock).read);
    assert o in w.past;
    assert Step(e, s) == Sys(w1, PatchWrite(o, name, note, false));
    StampDecidesPass(e, name, w1, o, note);
    BareStamp(e, name, w, e.tape(w.clock).read, note);
    assert Bare(w1) == Bare(w);
    BareStamp(e, name, w1, e.tape(w.clock).read, note);
  }

  /** A status write after the request of call `i`, whatever became of that. */
  lemma SentDecidesPass(e: Env, name: string, w: World, w1: World, i: nat, json: string, note: Note)
    requires WellFormed(w1) && w1.live.Some? && w1.clock == i + 1
    requires w1.live == w.live && Bare(w1) == Received(e, name, Bare(w), i, json)
    requires LagRest(e, Sys(w1, PatchRead(name, note, false)))
    ensures Agree(e.kind, name, Finish(e, Sys(w1, PatchRead(name, note, false))).world) <==>
            SentKeeps(e, name, Bare(w), i, json, note)
  {
    PatchDecidesPass(e, name, w1, note);
  }

  lemma PostDecidesPass(e: Env, name: string, w: World, c: CR)
    requires WellFormed(w) && w.live.Some? && LagRest(e, Sys(w, Post(c, name)))
    ensures e.tape(w.clock).reply.Answer?
    ensures Agree(e.kind, name, Finish(e, Sys(w, Post(c, name))).world) <==>
            SentKeeps(e, name, Bare(w), w.clock, c.spec.json, CreateNote(e.kind, e.tape(w.clock).reply))
  {
    var s := Sys(w, Post(c, name));
    LagStep(e, s);
    var s1, note := Step(e, s), CreateNote(e.kind, e.tape(w.clock).reply);
    assert s1.pass == PatchRead(name, note, false);
    SentDecidesPass(e, name, w, s1.world, w.clock, c.spec.json, note);
  }

  lemma PutDecidesPass(e: Env, name: string, w: World, c: CR, found: string)
    requires WellFormed(w) && w.live.Some? && LagRest(e, Sys(w, Put(c, name, found)))
    requires e.kind.Tenant? ==> Agree(e.kind, name, w)
    ensures Agree(e.kind, name, Finish(e, Sys(w, Put(c, name, found))).world) <==>
            PutKeeps(e, name, Bare(w), w.clock, c, found)
  {
    var s, r := Sys(w, Put(c, name, found)), e.tape(w.clock).reply;
    LagStep(e, s);
    var s1 := Step(e, s);
    if e.kind.Tenant? && r.code != 200 {
      assert s1.pass == Finalize(e, c);
      TrackedEnds(e, name, s1);
    } else {
      assert s1.pass == PatchRead(name, UpdateNote(e.kind, found, r), false);
      SentDecidesPass(e, name, w, s1.world, w.clock, c.spec.json, UpdateNote(e.kind, found, r));
    }
  }

  lemma AdoptHarmless(e: Env, name: string, w: World, o: CR, note: Note)
    requires |w.past| > 0 && w.live.Some? && LagCall(e, Sys(w, PatchWrite(o, name, note, true)))
    requires !Compare(e, o, name, note.reason).Put?
    ensures Harmless(e, name, Sys(w, PatchWrite(o, name, note, true))) <==> AdoptStampKeeps(e, name, w, o, note)
  {
    QuietArrive(e, w);
  }

  lemma AdoptStep(e: Env, name: string, w: World, o: CR, note: Note)
    requires WellFormed(w) && w.live.Some? && o in w.past
    requires LagCall(e, Sys(w, PatchWrite(o, name, note, true)))
    ensures var r := Step(e, Sys(w, PatchWrite(o, name, note, true)));
            && r.pass == Compare(e, o, name, note.reason)
            && r.world.live.Some? && r.world.live.value.version != o.version
  {
    QuietArrive(e, w);
    KnownVersion(w, o);
  }

  lemma AdoptBare(e: Env, name: string, w: World, o: CR, note: Note)
    requires |w.past| > 0 && w.live.Some? && LagCall(e, Sys(w, PatchWrite(o, name, note, true)))
    ensures Bare(Step(e, Sys(w, PatchWrite(o, name, note, true))).world)
         == Stamped(e.kind, Bare(w), o, note, e.tape(w.clock).now)
  {
    QuietArrive(e, w);
  }

  lemma AdoptEndsWithoutPut(e: Env, name: string, w: World, o: CR, note: Note)
    requires WellFormed(w) && w.live.Some? && !e.kind.Tenant? && o in w.past
    requires LagRest(e, Sys(w, PatchWrite(o, name, note, true))) && !Compare(e, o, name, note.reason).Put?
    ensures Agree(e.kind, name, Finish(e, Sys(w, PatchWrite(o, name, note, true))).world) <==>
            AdoptStampKeeps(e, name, w, o, note)
  {
    var s := Sys(w, PatchWrite(o, name, note, true));
    LagStep(e, s);
    AdoptHarmless(e, name, w, o, note);
    AdoptStep(e, name, w, o, note);
    CallDecides(e, name, s);
    EndDecides(e, name, Step(e, s), AdoptStampKeeps(e, name, w, o, note));
  }

  /** The state after an adopting write. */
  lemma AdoptLands(e: Env, name: string, w: World, o: CR, note: Note) returns (w': World)
    requires WellFormed(w) && w.live.Some? && o in w.past
    requires LagRest(e, Sys(w, PatchWrite(o, name, note, true)))
    ensures WellFormed(w') && w'.live.Some? && w'.clock == w.clock + 1
    ensures Bare(w') == Stamped(e.kind, Bare(w), o, note, e.tape(w.clock).now)
    ensures var s' := Sys(w', Compare(e, o, name, note.reason));
            LagRest(e, s') && Finish(e, Sys(w, PatchWrite(o, name, note, true))) == Finish(e, s')
  {
    var s := Sys(w, PatchWrite(o, name, note, true));
    LagStep(e, s);
    AdoptStep(e, name, w, o, note);
    AdoptBare(e, name, w, o, note);
    StepTicks(e, s);
    w' := Step(e, s).world;
    assert Step(e, s) == Sys(w', Compare(e, o, name, note.reason));
  }

  lemma AdoptThenPut(e: Env, name: string, w: World, o: CR, note: Note)
    requires WellFormed(w) && w.live.Some? && !e.kind.Tenant? && o in w.past
    requires LagRest(e, Sys(w, PatchWrite(o, name, note, true))) && Compare(e, o, name, note.reason).Put?
    ensures Agree(e.kind, name, Finish(e, Sys(w, PatchWrite(o, name, note, true))).world) <==>
            PutKeeps(e, name, Stamped(e.kind, Bare(w), o, note, e.tape(w.clock).now), w.clock + 1, o, note.reason)
  {
    var w' := AdoptLands(e, name, w, o, note);
    assert Compare(e, o, name, note.reason) == Put(o, name, note.reason);
    PutDecidesPass(e, name, w', o, note.reason);
  }

  lemma StepTicks(e: Env, s: Sys)
    requires |s.world.past| > 0
    ensures Step(e, s).world.clock == s.world.clock + 1
  {
  }

  lemma BareAdopt(e: Env, name: string, w: World, o: CR, note: Note)
    requires w.live.Some?
    ensures AdoptStampKeeps(e, name, w, o, note) <==> AdoptStampKeeps(e, name, Bare(w), o, note)
  {
  }

  lemma AdoptReads(e: Env, name: string, w: World, note: Note) returns (w1: World, o: CR)
    requires WellFormed(w) && w.live.Some? && LagRest(e, Sys(w, PatchRead(name, note, true)))
    ensures e.tape(w.clock).read.Fresh? || e.tape(w.clock).read.Stale?
    ensures WellFormed(w1) && w1.live.Some? && w1.clock == w.clock + 1 && Bare(w1) == Bare(w)
    ensures o in w1.past && o == Seen(Bare(w), e.tape(w.clock).read)
    ensures LagRest(e, Sys(w1, PatchWrite(o, name, note, true)))
    ensures Finish(e, Sys(w, PatchRead(name, note, true))) == Finish(e, Sys(w1, PatchWrite(o, name, note, true)))
  {
    var s := Sys(w, PatchRead(name, note, true));
    LagStep(e, s);
    w1, o := w.(clock := w.clock + 1), Seen(w, e.tape(w.clock).read);
    assert Step(e, s) == Sys(w1, PatchWrite(o, name, note, true));
  }

  lemma AdoptDecidesPass(e: Env, name: string, w: World, found: string)
    requires WellFormed(w) && w.live.Some? && !e.kind.Tenant?
    requires LagRest(e, Sys(w, PatchRead(name, AdoptNote(e.kind, found), true)))
    ensures Agree(e.kind, name, Finish(e, Sys(w, PatchRead(name, AdoptNote(e.kind, found), true))).world) <==>
            AdoptKeeps(e, name, Bare(w), w.clock, found)
  {
    var note := AdoptNote(e.kind, found);
    var w1, o := AdoptReads(e, name, w, note);
    AdoptWriteDecidesPass(e, name, w1, w.clock, o, found);
    AdoptedFromRead(e, name, Bare(w), w.clock, found,
                    Agree(e.kind, name, Finish(e, Sys(w1, PatchWrite(o, name, note, true))).world));
  }

  lemma AdoptedFromRead(e: Env, name: string, w: World, i: nat, found: string, agrees: bool)
    requires |w.past| > 0 && w.live.Some? && (e.tape(i).read.Fresh? || e.tape(i).read.Stale?)
    requires agrees <==> AdoptedKeeps(e, name, w, i, Seen(w, e.tape(i).read), found)
    ensures agrees <==> AdoptKeeps(e, name, w, i, found)
  {
  }

  lemma AdoptWriteDecidesPass(e: Env, name: string, w: World, i: nat, o: CR, found: string)
    requires WellFormed(w) && w.live.Some? && !e.kind.Tenant? && o in w.past && w.clock == i + 1
    requires LagRest(e, Sys(w, PatchWrite(o, name, AdoptNote(e.kind, found), true)))
    ensures Agree(e.kind, name, Finish(e, Sys(w, PatchWrite(o, name, AdoptNote(e.kind, found), true))).world) <==>
            AdoptedKeeps(e, name, Bare(w), i, o, found)
  {
    var note := AdoptNote(e.kind, found);
    var agrees := Agree(e.kind, name, Finish(e, Sys(w, PatchWrite(o, name, note, true))).world);
    if Compare(e, o, name, found).Put? {
      AdoptThenPut(e, name, w, o, note);
      AdoptedThenPut(e, name, Bare(w), i, o, found, agrees);
    } else {
      AdoptEndsWithoutPut(e, name, w, o, note);
      BareAdopt(e, name, w, o, note);
      AdoptedWithoutPut(e, name, Bare(w), i, o, found, agrees);
    }
  }

  lemma AdoptedThenPut(e: Env, name: string, w: World, i: nat, o: CR, found: string, agrees: bool)
    requires |w.past| > 0 && w.live.Some? && Compare(e, o, name, found).Put?
    requires agrees <==> PutKeeps(e, name, Stamped(e.kind, w, o, AdoptNote(e.kind, found), e.tape(i + 1).now), i + 2, o, found)
    ensures agrees <==> AdoptedKeeps(e, name, w, i, o, found)
  {
  }

  lemma AdoptedWithoutPut(e: Env, name: string, w: World, i: nat, o: CR, found: string, agrees: bool)
    requires |w.past| > 0 && w.live.Some? && !Compare(e, o, name, found).Put?
    requires agrees <==> AdoptStampKeeps(e, name, w, o, AdoptNote(e.kind, found))
    ensures agrees <==> AdoptedKeeps(e, name, w, i, o, found)
  {
  }

  lemma NextDecidesPass(e: Env, name: string, w: World, i: nat, c: CR)
    requires WellFormed(w) && w.live.Some? && Agree(e.kind, name, w) && w.clock == i + 1
    requires LagRest(e, Sys(w, AfterGet(e, c, name, e.tape(i).reply)))
    ensures Agree(e.kind, name, Finish(e, Sys(w, AfterGet(e, c, name, e.tape(i).reply))).world) <==>
            Keeps(e, name, Bare(w), i, c)
  {
    var s := Sys(w, AfterGet(e, c, name, e.tape(i).reply));
    match s.pass
    case Post(_, _) => PostDecidesPass(e, name, w, c);
    case PatchRead(_, note, _) => AdoptDecidesPass(e, name, w, note.reason);
    case Put(_, _, found) => PutDecidesPass(e, name, w, c, found);
    case _ => TrackedEnds(e, name, s);
  }

  lemma LookupDecidesPass(e: Env, name: string, w: World, c: CR)
    requires WellFormed(w) && w.live.Some? && Agree(e.kind, name, w) && NameOf(e, c.spec.json) == Some(name)
    requires LagRest(e, Sys(w, Lookup(c)))
    ensures Agree(e.kind, name, Finish(e, Sys(w, Lookup(c))).world) <==> Keeps(e, name, Bare(w), w.clock + 1, c)
  {
    var s, w1, w2 := Sys(w, Lookup(c)), w.(clock := w.clock + 1), w.(clock := w.clock + 2);
    LagStep(e, s);
    assert Step(e, s) == Sys(w1, Get(c, name));
    LagStep(e, Step(e, s));
    assert Step(e, Step(e, s)) == Sys(w2, AfterGet(e, c, name, e.tape(w.clock + 1).reply));
    NextDecidesPass(e, name, w2, w.clock + 1, c);
    assert Bare(w2) == Bare(w);
  }

  /** One whole reconcile that first reads copy `c`, in world `a`, after others have acted. It works on
      any copy, with any snapshots read inside `PatchStatus` and any answers of Pinot, true or false:
      agreement is kept exactly if what is sent, stamped, adopted and deleted adds up to it. */
  lemma OutdatedReadsKeepExactly(e: Env, name: string, w: World, a: World, c: CR)
    requires |w.past| > 0 && a == Arrive(e, w.(tally := NOTHING)) && ReadObject(e, w.(tally := NOTHING)) == Some(c)
    requires WellFormed(a) && a.live.Some? && Agree(e.kind, name, a) && NameOf(e, c.spec.json) == Some(name)
    requires LagRest(e, Step(e, Sys(w, Idle)))
    ensures Agree(e.kind, name, Reconcile(e, w)) <==> Keeps(e, name, Bare(a), w.clock + 2, c)
  {
    ReadStarts(e, w, a, c);
    LookupDecidesPass(e, name, a, c);
  }

  lemma ReadStarts(e: Env, w: World, a: World, c: CR)
    requires |w.past| > 0 && a == Arrive(e, w.(tally := NOTHING)) && ReadObject(e, w.(tally := NOTHING)) == Some(c)
    requires LagRest(e, Step(e, Sys(w, Idle)))
    ensures a.clock == w.clock + 1 && LagRest(e, Sys(a, Lookup(c)))
    ensures Reconcile(e, w) == Finish(e, Sys(a, Lookup(c))).world
  {
    assert Step(e, Sys(w, Idle)) == Sys(a, Lookup(c));
  }

  /** One lagging cache serves both reads of a pass: the update it leads to is outdated, but what is
      recorded is what was sent. */
  lemma LaggingUpdateKeeps(e: Env, name: string, w: World, a: World, c: CR)
    requires |w.past| > 0 && a == Arrive(e, w.(tally := NOTHING)) && ReadObject(e, w.(tally := NOTHING)) == Some(c)
    requires WellFormed(a) && a.live.Some? && Agree(e.kind, name, a) && NameOf(e, c.spec.json) == Some(name)
    requires Lawful(e.codec) && LagRest(e, Step(e, Sys(w, Idle)))
    requires AfterGet(e, c, name, e.tape(w.clock + 2).reply).Put? && Applied(e.tape(w.clock + 3).reply)
    requires Snapshot(a, e.tape(w.clock + 4).read) == Some(c)
    ensures Agree(e.kind, name, Reconcile(e, w))
  {
    OutdatedReadsKeepExactly(e, name, w, a, c);
    NamedIsNotEmpty(e, c.spec.json);
    assert c.status.currentJson != c.spec.json;
    assert Received(e, name, Bare(a), w.clock + 3, c.spec.json).pinot[name] == c.spec.json;
  }

  /** A pass with fresh reads is told that an existing entity is absent. Agreement survives exactly if
      the POST is accepted, or Pinot stores the wanted JSON already, or the pass deletes the entity. */
  lemma FalseAbsenceKeepsExactly(e: Env, name: string, w: World, a: World, o: CR)
    requires |w.past| > 0 && a == Arrive(e, w.(tally := NOTHING)) && ReadObject(e, w.(tally := NOTHING)) == Some(o)
    requires WellFormed(a) && a.live == Some(o) && Agree(e.kind, name, a) && NameOf(e, o.spec.json) == Some(name)
    requires Lawful(e.codec) && LagRest(e, Step(e, Sys(w, Idle)))
    requires name in a.pinot && ReportsAbsent(e.kind, e.tape(w.clock + 2).reply)
    requires e.tape(w.clock + 3).reply.Answer? && e.tape(w.clock + 4).read.Fresh?
    ensures Agree(e.kind, name, Reconcile(e, w)) <==>
            e.tape(w.clock + 3).reply.code == 200 || a.pinot[name] == o.spec.json || Leaves(e, o)
  {
    OutdatedReadsKeepExactly(e, name, w, a, o);
    NamedIsNotEmpty(e, o.spec.json);
    var note := CreateNote(e.kind, e.tape(w.clock + 3).reply);
    CreationIsNotFailedUpdate(e.kind, e.tape(w.clock + 3).reply);
    FreshStampKeeps(e, name, Received(e, name, Bare(a), w.clock + 3, o.spec.json), o, note);
  }

  lemma FreshStampKeeps(e: Env, name: string, w: World, o: CR, note: Note)
    requires w.live == Some(o) && name in w.pinot && o.spec.json != "" && note.message != UpdateFail(e.kind)
    requires NameOf(e, o.spec.json) == Some(name)
    ensures StampKeeps(e, name, w, o, note) <==> w.pinot[name] == o.spec.json || Leaves(e, o)
  {
  }

  lemma CreationIsNotFailedUpdate(k: Kind, r: Reply)
    requires r.Answer?
    ensures CreateNote(k, r).message != UpdateFail(k)
  {
    SuccessIsNotFailure(k);
    assert CreateFail(k)[|Prefix(k)|] == 'C' && UpdateFail(k)[|Prefix(k)|] == 'U';
  }

  // ------------------------------------------------------------------ the first copy outdated, snapshots fresh

  /** The finalizer stage removes the entity from Pinot. */
  predicate Leaves(e: Env, o: CR) { o.deleting && Finalizer(e) in o.finalizers }

  /** A pass that starts from copy `c` of a live object `o` does harm. Where it sends a POST or a PUT, the
      copy's JSON must still be the wanted one. Where it adopts, although something was recorded
      meanwhile, Pinot must store the wanted JSON, or the record must call for an update. An entity
      that the same pass deletes is out of harm. */
  predicate Harms(e: Env, name: string, w: World, c: CR)
    requires w.live.Some?
  {
    var o := w.live.value;
    if name !in w.pinot then
      c.spec.json != o.spec.json && !Leaves(e, o)
    else if !e.kind.Tenant? && c.status.currentJson == "" then
      w.pinot[name] != o.spec.json &&
        match IsEqualJson(e.codec, o.status.currentJson, o.spec.json)
        case None => true
        case Some(same) => same && !Leaves(e, o)
    else
      IsEqualJson(e.codec, c.status.currentJson, c.spec.json) == Some(false)
      && c.spec.json != o.spec.json && !Leaves(e, o)
  }

  lemma SuccessIsNotFailure(k: Kind)
    ensures CreateSuccess(k) != UpdateFail(k) && UpdateSuccess(k) != UpdateFail(k)
  {
    assert |CreateSuccess(k)| == |Prefix(k)| + 13 && |UpdateSuccess(k)| == |Prefix(k)| + 13;
    assert |UpdateFail(k)| == |Prefix(k)| + 10;
  }

  /** Whatever copy the finalizer stage works on, it leaves the status alone and removes the entity
      exactly when that copy is marked and holds the finalizer. */
  lemma FinalStageEffect(e: Env, w: World, copy: CR, name: string)
    requires WellFormed(w) && w.live.Some? && NameOf(e, copy.spec.json) == Some(name)
    requires QuietRest(e, Sys(w, Finalize(e, copy)))
    ensures var r := Finish(e, Sys(w, Finalize(e, copy))).world;
            && r.pinot == (if Leaves(e, copy) then w.pinot - {name} else w.pinot)
            && (r.live.Some? ==> r.live.value.status == w.live.value.status)
            && (!Leaves(e, copy) ==> r.live.Some?)
  {
    match Finalize(e, copy)
    case AddFinalizer(_) => QuietStep(e, Sys(w, AddFinalizer(copy)));
    case LookupAgain(_) => RemovalEffect(e, w, copy, name);
    case _ =>
  }

  lemma RemovalEffect(e: Env, w: World, copy: CR, name: string)
    requires WellFormed(w) && w.live.Some? && NameOf(e, copy.spec.json) == Some(name)
    requires QuietRest(e, Sys(w, LookupAgain(copy)))
    ensures var r := Finish(e, Sys(w, LookupAgain(copy))).world;
            && r.pinot == w.pinot - {name}
            && (r.live.Some? ==> r.live.value.status == w.live.value.status)
  {
    var s0 := Sys(w, LookupAgain(copy));
    QuietStep(e, s0);
    var s1 := Sys(w.(clock := w.clock + 1), Delete(copy, name));
    assert Step(e, s0) == s1;
    QuietStep(e, s1);
    var s2 := Step(e, s1);
    assert s2.pass == RemoveFinalizer(copy) && s2.world.pinot == w.pinot - {name} && s2.world.live == w.live;
    QuietStep(e, s2);
    RemovalKeepsStatus(e, s2);
  }

  lemma RemovalKeepsStatus(e: Env, s: Sys)
    requires |s.world.past| > 0 && s.pass.RemoveFinalizer? && e.tape(s.world.clock).before == []
    ensures var w, r := s.world, Step(e, s);
            && r.pass.Idle? && r.world.pinot == w.pinot
            && (r.world.live.Some? ==> w.live.Some? && r.world.live.value.status == w.live.value.status)
  {
  }

  lemma SendEffect(e: Env, w: World, p: Pass, name: string)
    requires Lawful(e.codec) && WellFormed(w) && w.live.Some? && QuietRest(e, Sys(w, p))
    requires NameOf(e, w.live.value.spec.json) == Some(name)
    requires (p.Post? || p.Put?) && p.name == name
    ensures Agree(e.kind, name, Finish(e, Sys(w, p)).world) <==>
            p.copy.spec.json == w.live.value.spec.json || Leaves(e, w.live.value)
  {
    var o, s0 := w.live.value, Sys(w, p);
    QuietStep(e, s0);
    var s1 := Step(e, s0);
    assert s1.pass.PatchRead? && !s1.pass.adopting && s1.world.live == w.live;
    assert s1.world.pinot == w.pinot[name := p.copy.spec.json];
    var s2 := QuietPatch(e, s1.world, name, s1.pass.note, false);
    FinalStageEffect(e, s2.world, o, name);
    SuccessIsNotFailure(e.kind);
    NamedIsNotEmpty(e, o.spec.json);
  }

  lemma AdoptEffect(e: Env, w: World, name: string, found: string)
    requires Lawful(e.codec) && WellFormed(w) && w.live.Some? && name in w.pinot
    requires NameOf(e, w.live.value.spec.json) == Some(name)
    requires QuietRest(e, Sys(w, PatchRead(name, AdoptNote(e.kind, found), true)))
    ensures var o := w.live.value;
            Agree(e.kind, name, Finish(e, Sys(w, PatchRead(name, AdoptNote(e.kind, found), true))).world) <==>
            w.pinot[name] == o.spec.json ||
              match IsEqualJson(e.codec, o.status.currentJson, o.spec.json)
              case None => false
              case Some(same) => !same || Leaves(e, o)
  {
    var o := w.live.value;
    var s := QuietPatch(e, w, name, AdoptNote(e.kind, found), true);
    SuccessIsNotFailure(e.kind);
    NamedIsNotEmpty(e, o.spec.json);
    match IsEqualJson(e.codec, o.status.currentJson, o.spec.json)
    case None =>
    case Some(same) =>
      if same { FinalStageEffect(e, s.world, o, name); } else { SendEffect(e, s.world, s.pass, name); }
  }

  lemma GetEffect(e: Env, w: World, c: CR, name: string)
    requires Lawful(e.codec) && WellFormed(w) && w.live.Some? && Agree(e.kind, name, w)
    requires NameOf(e, c.spec.json) == Some(name) && NameOf(e, w.live.value.spec.json) == Some(name)
    requires QuietRest(e, Sys(w, Get(c, name)))
    ensures Agree(e.kind, name, Finish(e, Sys(w, Get(c, name))).world) <==> !Harms(e, name, w, c)
  {
    var s0 := Sys(w, Get(c, name));
    QuietStep(e, s0);
    var s1 := Step(e, s0);
    var found := ReplyOf(e, w).body;
    assert s1.world.live == w.live && s1.world.pinot == w.pinot;
    if name !in w.pinot {
      SendEffect(e, s1.world, s1.pass, name);
    } else if !e.kind.Tenant? && c.status.currentJson == "" {
      AdoptEffect(e, s1.world, name, found);
    } else {
      match IsEqualJson(e.codec, c.status.currentJson, c.spec.json)
      case None =>
      case Some(same) =>
        if same { FinalStageEffect(e, s1.world, c, name); } else { SendEffect(e, s1.world, s1.pass, name); }
    }
  }

  /** A pass whose later reads are fresh may start from any copy `c` that names the entity. If record and
      Pinot agreed before, they agree after the quiet pass exactly if the copy does no harm. */
  lemma OutdatedCopyHarmsExactly(e: Env, name: string, w: World, c: CR)
    requires Lawful(e.codec) && WellFormed(w) && w.live.Some? && Agree(e.kind, name, w)
    requires NameOf(e, c.spec.json) == Some(name) && NameOf(e, w.live.value.spec.json) == Some(name)
    requires QuietRest(e, Sys(w, Lookup(c)))
    ensures Agree(e.kind, name, Finish(e, Sys(w, Lookup(c))).world) <==> !Harms(e, name, w, c)
  {
    var s0 := Sys(w, Lookup(c));
    QuietStep(e, s0);
    assert Step(e, s0) == Sys(w.(clock := w.clock + 1), Get(c, name));
    GetEffect(e, w.(clock := w.clock + 1), c, name);
  }

  /** The same for a whole reconcile: edits may come before its first read, and that read, the only one
      that may be stale, may return any version the object ever had. */
  lemma OutdatedReadHarmsExactly(e: Env, name: string, w: World)
    requires Lawful(e.codec) && WellFormed(w) && QuietRest(e, Step(e, Sys(w, Idle)))
    requires var a, c := Arrive(e, w.(tally := NOTHING)), ReadObject(e, w.(tally := NOTHING));
             && a.live.Some? && c.Some? && Agree(e.kind, name, a)
             && NameOf(e, c.value.spec.json) == Some(name) && NameOf(e, a.live.value.spec.json) == Some(name)
    ensures var a, c := Arrive(e, w.(tally := NOTHING)), ReadObject(e, w.(tally := NOTHING)).value;
            Agree(e.kind, name, Reconcile(e, w)) <==> !Harms(e, name, a, c)
  {
    var w0 := w.(tally := NOTHING);
    ArriveExtends(e, w0);
    OutdatedCopyHarmsExactly(e, name, Arrive(e, w0), ReadObject(e, w0).value);
  }

  /** With the entity in place, something recorded and nothing being deleted: the copy does harm exactly
      if it leads to a PUT of a JSON that is not wanted any more. */
  lemma OutdatedUpdateHarmsExactly(e: Env, name: string, w: World, c: CR)
    requires Lawful(e.codec) && WellFormed(w) && w.live.Some? && Agree(e.kind, name, w)
    requires NameOf(e, c.spec.json) == Some(name) && NameOf(e, w.live.value.spec.json) == Some(name)
    requires QuietRest(e, Sys(w, Lookup(c)))
    requires name in w.pinot && c.status.currentJson != "" && !Leaves(e, w.live.value)
    ensures Agree(e.kind, name, Finish(e, Sys(w, Lookup(c))).world) <==>
            !Compare(e, c, name, "").Put? || c.spec.json == w.live.value.spec.json
  {
    OutdatedCopyHarmsExactly(e, name, w, c);
  }

  /** A status patch from any snapshot leaves agreement exactly under `StampAgrees`. */
  lemma StampAgreesExactly(e: Env, name: string, s: Sys)
    requires WellFormed(s.world) && s.pass.PatchWrite? && e.tape(s.world.clock).write.Done?
    requires Arrive(e, s.world).live.Some?
    ensures Agree(e.kind, name, Step(e, s).world) <==>
            StampAgrees(e.kind, name, Arrive(e, s.world), s.pass.copy, s.pass.note)
  {
    ArriveExtends(e, s.world);
  }

  /** Pinot stores JSON other than the wanted one, and the pass goes on to record success. */
  predicate Doomed(k: Kind, name: string, w: World, note: Note) {
    && w.live.Some? && name in w.pinot && w.pinot[name] != w.live.value.spec.json
    && note.message != UpdateFail(k)
  }

  lemma ReadStaysDoomed(e: Env, name: string, s: Sys)
    requires |s.world.past| > 0 && Steady(e, name, s) && s.pass.PatchRead? && e.tape(s.world.clock).read.Fresh?
    requires Doomed(e.kind, name, s.world, s.pass.note) && Step(e, s).world.live.Some?
    ensures var r := Step(e, s);
            && r.pass.PatchWrite? && r.pass.note == s.pass.note && r.world.live == Some(r.pass.copy)
            && Doomed(e.kind, name, r.world, r.pass.note)
  {
    CalmInterference(e, name, false, s.world, e.tape(s.world.clock).before);
  }

  lemma StampIsDoomed(e: Env, name: string, s: Sys)
    requires |s.world.past| > 0 && Steady(e, name, s) && s.pass.PatchWrite?
    requires Doomed(e.kind, name, s.world, s.pass.note) && s.world.live == Some(s.pass.copy)
    requires Step(e, s).world.live.Some?
    ensures !Agree(e.kind, name, Step(e, s).world)
  {
    CalmInterference(e, name, false, s.world, e.tape(s.world.clock).before);
  }

  /** Once Pinot accepts JSON that is not wanted any more, a status patch that then reads the object as
      it is breaks agreement, whatever interleaves steadily. One that reads an outdated version need
      not: see `LaggingUpdateKeeps`. */
  lemma OutdatedSendBreaks(e: Env, name: string, s: Sys)
    requires |s.world.past| > 0 && (s.pass.Post? || s.pass.Put?) && s.pass.name == name
    requires Steady(e, name, s) && Steady(e, name, Step(e, s)) && Steady(e, name, Step(e, Step(e, s)))
    requires ReplyOf(e, s.world).Answer? && Applied(ReplyOf(e, s.world))
    requires var a := Arrive(e, s.world); a.live.Some? && s.pass.copy.spec.json != a.live.value.spec.json
    requires e.tape(Step(e, s).world.clock).read.Fresh?
    requires Step(e, Step(e, s)).world.live.Some? && Step(e, Step(e, Step(e, s))).world.live.Some?
    ensures !Agree(e.kind, name, Step(e, Step(e, Step(e, s))).world)
  {
    SuccessIsNotFailure(e.kind);
    var s1 := Step(e, s);
    assert s1.pass.PatchRead? && Doomed(e.kind, name, s1.world, s1.pass.note);
    ReadStaysDoomed(e, name, s1);
    StampIsDoomed(e, name, Step(e, s1));
  }
}
