/** Agreement of the recorded JSON with what Pinot stores: over every run and every outcome of every
    call, exactly when it holds between passes. */
module Agreement {
  import opened Json
  import opened Protocol
  import opened Safety

  // ------------------------------------------------------------------ agreement

  /** Status `st` says what Pinot stores, or (schemas and tables) that the last update failed. */
  predicate Says(k: Kind, st: Status, stored: string) {
    && st.currentJson != ""
    && (st.currentJson == stored || (!k.Tenant? && st.message == UpdateFail(k)))
  }

  /** An entity that exists in Pinot is recorded exactly, unless (schemas and tables) the last
      update is on record as failed. */
  predicate Agree(k: Kind, name: string, w: World) {
    w.live.Some? && name in w.pinot ==> Says(k, w.live.value.status, w.pinot[name])
  }

  lemma NamedIsNotEmpty(e: Env, json: string)
    requires Lawful(e.codec) && NameOf(e, json).Some?
    ensures json != "" && e.codec.decode(json).Some?
  {
  }

  /** Nobody but the controller writes this entity in Pinot or the record and message of the status.
      Spec, marks, finalizers and reload notes may change at any time. */
  ghost predicate Abstains(name: string, a: EnvAction) {
    match a
    case EditStatus(f) => forall st :: f(st).currentJson == st.currentJson && f(st).message == st.message
    case PinotWrite(n, _) => n != name
    case PinotDrop(n) => n != name
    case _ => true
  }

  ghost predicate AllAbstain(name: string, acts: seq<EnvAction>) {
    forall j :: 0 <= j < |acts| ==> Abstains(name, acts[j])
  }

  ghost predicate OthersAbstain(e: Env, name: string) {
    forall i: nat :: AllAbstain(name, e.tape(i).before)
  }

  predicate SameRecord(a: CR, b: CR) {
    a.status.currentJson == b.status.currentJson && a.status.message == b.status.message
  }

  predicate SameEntry(name: string, w: World, w': World) {
    (name in w'.pinot <==> name in w.pinot) && (name in w.pinot ==> w'.pinot[name] == w.pinot[name])
  }

  predicate Unchanged(name: string, w: World, w': World) {
    && SameEntry(name, w, w')
    && (w'.live.Some? ==> w.live.Some? && SameRecord(w'.live.value, w.live.value))
  }

  lemma {:induction false} AbstainersChangeNothing(name: string, w: World, acts: seq<EnvAction>)
    requires |w.past| > 0 && AllAbstain(name, acts)
    ensures Unchanged(name, w, InterfereAll(w, acts))
    decreases |acts|
  {
    if acts != [] {
      assert Abstains(name, acts[0]);
      assert Unchanged(name, w, Interfere(w, acts[0]));
      AbstainersChangeNothing(name, Interfere(w, acts[0]), acts[1..]);
    }
  }

  lemma ArriveUnchanged(e: Env, name: string, s: Sys)
    requires |s.world.past| > 0 && AllAbstain(name, e.tape(s.world.clock).before)
    ensures Unchanged(name, s.world, Arrive(e, Caller(s)))
  {
    AbstainersChangeNothing(name, Caller(s), e.tape(s.world.clock).before);
  }

  // ------------------------------------------------------------------ harmless calls

  /** A status patch from snapshot `o` leaves agreement. A field in which snapshot and target coincide
      keeps what is live. */
  predicate StampAgrees(k: Kind, name: string, w: World, o: CR, note: Note)
    requires w.live.Some?
  {
    name in w.pinot ==>
      var st := w.live.value.status;
      var record := if o.status.currentJson == o.spec.json then st.currentJson else o.spec.json;
      var message := if o.status.message == note.message then st.message else note.message;
      && record != ""
      && (record == w.pinot[name] || (!k.Tenant? && message == UpdateFail(k)))
  }

  /** The copy makes the finalizer stage send a DELETE for the entity. */
  predicate Removes(e: Env, name: string, o: CR) {
    o.deleting && Finalizer(e) in o.finalizers && NameOf(e, o.spec.json) == Some(name)
  }

  /** Where a pass may stand while Pinot and record disagree, because it is still going to write. */
  predicate MayOwe(e: Env, name: string, p: Pass) {
    match p
    case PatchRead(_, _, _) => true
    case PatchWrite(_, _, _, _) => true
    case Put(_, _, _) => !e.kind.Tenant?
    case LookupAgain(copy) => NameOf(e, copy.spec.json) == Some(name)
    case Delete(_, n) => n == name
    case _ => false
  }

  /** The next call does no harm to agreement. Reads of the object never do by themselves, however
      stale. A send does only if its reply is lost, a status write if it does not leave agreement and
      the pass goes on to neither a PUT nor a DELETE of the entity. A failure does if it ends a pass
      that still owes agreement. */
  predicate Harmless(e: Env, name: string, s: Sys)
    requires |s.world.past| > 0
  {
    var k, a, t := e.kind, Arrive(e, Caller(s)), e.tape(s.world.clock);
    a.live.Some? ==>
      var st := a.live.value.status;
      match s.pass
      case Post(copy, n) => t.reply == Lost(true) && n == name ==> Says(k, st, copy.spec.json)
      case Put(copy, n, _) =>
        t.reply.Lost? ==>
          if t.reply.applied && n == name then Says(k, st, copy.spec.json) else Agree(k, name, a)
      case PatchRead(_, _, _) => ReadObject(e, s.world).None? ==> Agree(k, name, a)
      case PatchWrite(copy, n, note, adopting) =>
        (match t.write
         case Failed(applied) => if applied then StampAgrees(k, name, a, copy, note) else Agree(k, name, a)
         case Done =>
           || StampAgrees(k, name, a, copy, note)
           || (adopting && Compare(e, copy, n, note.reason).Put?)
           || (Removes(e, name, copy) && (adopting ==> Compare(e, copy, n, note.reason).LookupAgain?)))
      case LookupAgain(_) => LookupFound(e, s.world) || Agree(k, name, a)
      case Delete(_, _) => Applied(t.reply) || Agree(k, name, a)
      case _ => true
  }

  // ------------------------------------------------------------------ one call

  /** Agreement, or a pass that can still bring it about. */
  ghost predicate Tracks(e: Env, name: string, s: Sys) {
    && TenantsDoNotAdopt(e.kind, s.pass)
    && (s.world.live.Some? ==> Agree(e.kind, name, s.world) || MayOwe(e, name, s.pass))
  }

  /** No agreement, and a pass that can no longer bring it about. */
  predicate Broken(e: Env, name: string, s: Sys) {
    s.world.live.Some? ==>
      && !Agree(e.kind, name, s.world)
      && match s.pass
         case Idle => true
         case AddFinalizer(_) => true
         case RemoveFinalizer(_) => true
         case LookupAgain(copy) => NameOf(e, copy.spec.json) != Some(name)
         case Delete(_, n) => n != name
         case _ => false
  }

  lemma ReadDecides(e: Env, name: string, s: Sys)
    requires |s.world.past| > 0 && Unchanged(name, s.world, Arrive(e, Caller(s))) && Tracks(e, name, s)
    requires s.pass.Idle? || s.pass.Lookup? || s.pass.Get? || s.pass.PatchRead? || s.pass.LookupAgain?
    ensures if Harmless(e, name, s) then Tracks(e, name, Step(e, s)) else Broken(e, name, Step(e, s))
  {
  }

  lemma SendDecides(e: Env, name: string, s: Sys)
    requires |s.world.past| > 0 && Unchanged(name, s.world, Arrive(e, Caller(s))) && Tracks(e, name, s)
    requires s.pass.Post? || s.pass.Put? || s.pass.Delete?
    ensures if Harmless(e, name, s) then Tracks(e, name, Step(e, s)) else Broken(e, name, Step(e, s))
  {
  }

  lemma FailedStampDecides(e: Env, name: string, s: Sys)
    requires |s.world.past| > 0 && Unchanged(name, s.world, Arrive(e, Caller(s))) && Tracks(e, name, s)
    requires s.pass.PatchWrite? && e.tape(s.world.clock).write.Failed?
    ensures if Harmless(e, name, s) then Tracks(e, name, Step(e, s)) else Broken(e, name, Step(e, s))
  {
  }

  lemma StampedAgrees(e: Env, name: string, s: Sys)
    requires |s.world.past| > 0 && s.pass.PatchWrite? && e.tape(s.world.clock).write.Done?
    ensures var a, w' := Arrive(e, s.world), Step(e, s).world;
            && (w'.live.Some? ==> a.live.Some? && (Agree(e.kind, name, w') <==>
                 StampAgrees(e.kind, name, a, s.pass.copy, s.pass.note)))
            && Step(e, s).pass == if a.live.None? then Idle
                                  else if s.pass.adopting then Compare(e, s.pass.copy, s.pass.name, s.pass.note.reason)
                                  else Finalize(e, s.pass.copy)
  {
  }

  lemma DoneStampDecides(e: Env, name: string, s: Sys)
    requires |s.world.past| > 0 && Tracks(e, name, s)
    requires s.pass.PatchWrite? && e.tape(s.world.clock).write.Done?
    ensures if Harmless(e, name, s) then Tracks(e, name, Step(e, s)) else Broken(e, name, Step(e, s))
  {
    StampedAgrees(e, name, s);
    GoneStaysGone(s.world, e.tape(s.world.clock).before);
  }

  lemma StampDecides(e: Env, name: string, s: Sys)
    requires |s.world.past| > 0 && Unchanged(name, s.world, Arrive(e, Caller(s))) && Tracks(e, name, s)
    requires s.pass.PatchWrite?
    ensures if Harmless(e, name, s) then Tracks(e, name, Step(e, s)) else Broken(e, name, Step(e, s))
  {
    if e.tape(s.world.clock).write.Done? { DoneStampDecides(e, name, s); } else { FailedStampDecides(e, name, s); }
  }

  lemma UpdateDecides(e: Env, name: string, s: Sys)
    requires |s.world.past| > 0 && Unchanged(name, s.world, Arrive(e, Caller(s))) && Tracks(e, name, s)
    requires s.pass.AddFinalizer? || s.pass.RemoveFinalizer?
    ensures Harmless(e, name, s) && Tracks(e, name, Step(e, s))
  {
  }

  /** One call, whatever comes between and however it ends: harmless or not decides. */
  lemma CallDecides(e: Env, name: string, s: Sys)
    requires |s.world.past| > 0 && AllAbstain(name, e.tape(s.world.clock).before) && Tracks(e, name, s)
    ensures if Harmless(e, name, s) then Tracks(e, name, Step(e, s)) else Broken(e, name, Step(e, s))
  {
    ArriveUnchanged(e, name, s);
    match s.pass
    case Post(_, _) => SendDecides(e, name, s);
    case Put(_, _, _) => SendDecides(e, name, s);
    case Delete(_, _) => SendDecides(e, name, s);
    case PatchWrite(_, _, _, _) => StampDecides(e, name, s);
    case AddFinalizer(_) => UpdateDecides(e, name, s);
    case RemoveFinalizer(_) => UpdateDecides(e, name, s);
    case _ => ReadDecides(e, name, s);
  }

  lemma BrokenStaysBroken(e: Env, name: string, s: Sys)
    requires |s.world.past| > 0 && AllAbstain(name, e.tape(s.world.clock).before)
    requires Broken(e, name, s) && !s.pass.Idle?
    ensures Broken(e, name, Step(e, s))
  {
    ArriveUnchanged(e, name, s);
  }

  // ------------------------------------------------------------------ whole runs

  /** Agreement at every moment between passes up to call `n`. */
  predicate AgreesUpTo(e: Env, name: string, s: Sys, n: nat)
    requires |s.world.past| > 0
  {
    && (At(e, s, n).pass.Idle? ==> Agree(e.kind, name, At(e, s, n).world))
    && (n == 0 || AgreesUpTo(e, name, s, n - 1))
  }

  predicate HarmlessUpTo(e: Env, name: string, s: Sys, n: nat)
    requires |s.world.past| > 0
  {
    n == 0 || (HarmlessUpTo(e, name, s, n - 1) && HarmlessAt(e, name, s, n - 1))
  }

  predicate HarmlessAt(e: Env, name: string, s: Sys, m: nat)
    requires |s.world.past| > 0
  {
    Harmless(e, name, At(e, s, m))
  }

  lemma {:induction false} HarmlessAll(e: Env, name: string, s: Sys, n: nat)
    requires |s.world.past| > 0 && forall m: nat | m < n :: HarmlessAt(e, name, s, m)
    ensures HarmlessUpTo(e, name, s, n)
  {
    if n > 0 { HarmlessAll(e, name, s, n - 1); }
  }

  lemma LiveBefore(e: Env, s: Sys, n: nat)
    requires |s.world.past| > 0 && At(e, s, n + 1).world.live.Some?
    ensures At(e, s, n).world.live.Some?
  {
    GoneStaysGone(Caller(At(e, s, n)), e.tape(At(e, s, n).world.clock).before);
  }

  lemma {:induction false} GoneStaysGone(w: World, acts: seq<EnvAction>)
    requires |w.past| > 0
    ensures InterfereAll(w, acts).live.Some? ==> w.live.Some?
    decreases |acts|
  {
    if acts != [] { GoneStaysGone(Interfere(w, acts[0]), acts[1..]); }
  }

  /** A run is on track exactly if all its calls were harmless. Once it is off track, either agreement
      has failed between two passes, or it is going to when the present pass ends. */
  ghost predicate OnOrOff(e: Env, name: string, s: Sys, n: nat)
    requires |s.world.past| > 0
  {
    if HarmlessUpTo(e, name, s, n) then Tracks(e, name, At(e, s, n)) && AgreesUpTo(e, name, s, n)
    else !AgreesUpTo(e, name, s, n) || (Broken(e, name, At(e, s, n)) && !At(e, s, n).pass.Idle?)
  }

  lemma OnOrOffNext(e: Env, name: string, s: Sys, m: nat)
    requires |s.world.past| > 0 && OthersAbstain(e, name) && OnOrOff(e, name, s, m)
    requires At(e, s, m + 1).world.live.Some?
    ensures OnOrOff(e, name, s, m + 1)
  {
    var t := At(e, s, m);
    assert At(e, s, m + 1) == Step(e, t);
    if HarmlessUpTo(e, name, s, m) {
      CallDecides(e, name, t);
    } else if Broken(e, name, t) && !t.pass.Idle? {
      BrokenStaysBroken(e, name, t);
    }
  }

  lemma {:induction false} RunOnOrOff(e: Env, name: string, s: Sys, n: nat)
    requires |s.world.past| > 0 && s.pass.Idle? && Agree(e.kind, name, s.world) && OthersAbstain(e, name)
    requires At(e, s, n).world.live.Some?
    ensures OnOrOff(e, name, s, n)
  {
    if n > 0 {
      var m: nat := n - 1;
      LiveBefore(e, s, m);
      RunOnOrOff(e, name, s, m);
      OnOrOffNext(e, name, s, m);
    }
  }

  /** Over every run in which others leave the entity and its record alone, with stale reads, lost and
      refused requests, failed patches and spec edits at any time: record and Pinot agree between all
      passes up to the end of a pass exactly if every call up to there was harmless. */
  lemma AgreementExactly(e: Env, name: string, s: Sys, n: nat)
    requires |s.world.past| > 0 && s.pass.Idle? && Agree(e.kind, name, s.world) && OthersAbstain(e, name)
    requires At(e, s, n).pass.Idle? && At(e, s, n).world.live.Some?
    ensures AgreesUpTo(e, name, s, n) <==> HarmlessUpTo(e, name, s, n)
  {
    RunOnOrOff(e, name, s, n);
  }
}
