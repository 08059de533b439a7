/** The reload log of one table over runs of the table controller: exactly when it holds the answers
    noted since the controller's last status write. */
module ReloadLog {
  import opened Json
  import opened Protocol
  import opened Safety
  import Reload

  // ------------------------------------------------------------------ what the log should be

  /** Other parties leave the log alone; it is written by notes of the scan and by status patches. */
  ghost predicate KeepsLog(a: EnvAction) {
    a.EditStatus? ==> forall st :: a.status(st).reloadStatus == st.reloadStatus
  }

  ghost predicate OnlyNotesTouchLog(e: Env) {
    forall i: nat, j: nat :: j < |e.tape(i).before| ==> KeepsLog(e.tape(i).before[j])
  }

  function NotedBy(acts: seq<EnvAction>): seq<string> {
    if acts == [] then [] else NotedIn(acts[0]) + NotedBy(acts[1..])
  }

  function NotedIn(a: EnvAction): seq<string> {
    if a.NoteReload? then [a.body] else []
  }

  function Before(e: Env, t: Sys): seq<EnvAction> { e.tape(t.world.clock).before }

  /** This call commits a status write, whether or not the controller learns of it. */
  predicate Stamps(e: Env, t: Sys)
    requires |t.world.past| > 0
  {
    t.pass.PatchWrite? && Arrive(e, t.world).live.Some? && e.tape(t.world.clock).write != Failed(false)
  }

  function LogAfter(e: Env, t: Sys, log: seq<string>): seq<string>
    requires |t.world.past| > 0
  {
    if Stamps(e, t) then [] else log + NotedBy(Before(e, t))
  }

  function LogOf(w: World): seq<string> {
    if w.live.None? then [] else Entries(w.live.value.status)
  }

  /** The answers noted since the last committed status write of the table controller, after `n` calls. */
  function SinceStamp(e: Env, s: Sys, n: nat): seq<string>
    requires |s.world.past| > 0
  {
    if n == 0 then LogOf(s.world) else LogAfter(e, At(e, s, n - 1), SinceStamp(e, s, n - 1))
  }

  predicate Exact(w: World, log: seq<string>) { w.live.Some? ==> LogOf(w) == log }

  /** The log is exact before, between and after these actions. */
  ghost predicate ExactThrough(w: World, acts: seq<EnvAction>, log: seq<string>)
    requires |w.past| > 0
    decreases |acts|
  {
    Exact(w, log) && (acts == [] || ExactThrough(Interfere(w, acts[0]), acts[1..], log + NotedBy([acts[0]])))
  }

  ghost predicate CallExact(e: Env, t: Sys, log: seq<string>)
    requires |t.world.past| > 0
  {
    ExactThrough(Caller(t), Before(e, t), log) && Exact(Step(e, t).world, LogAfter(e, t, log))
  }

  // ------------------------------------------------------------------ what writers must not miss

  /** The log a note was computed from has the entries of the log it is written over. */
  predicate NoteFits(w: World, a: EnvAction)
    requires |w.past| > 0
  {
    a.NoteReload? && w.live.Some? ==> Entries(VersionRead(w, w.live.value, a.read).status) == LogOf(w)
  }

  predicate NotesFit(w: World, acts: seq<EnvAction>)
    requires |w.past| > 0
    decreases |acts|
  {
    acts == [] || (NoteFits(w, acts[0]) && NotesFit(Interfere(w, acts[0]), acts[1..]))
  }

  /** A status write was computed from a log that was not cleared yet, or finds nothing to clear. */
  predicate StampFits(e: Env, t: Sys)
    requires |t.world.past| > 0
  {
    Stamps(e, t) ==> t.pass.copy.status.reloadStatus != Some([]) || LogOf(Arrive(e, t.world)) == []
  }

  predicate CallFits(e: Env, t: Sys)
    requires |t.world.past| > 0
  {
    NotesFit(Caller(t), Before(e, t)) && StampFits(e, t)
  }

  // ------------------------------------------------------------------ one action, one call

  lemma NoteExact(w: World, a: EnvAction, log: seq<string>)
    requires WellFormed(w) && Exact(w, log) && a.NoteReload?
    ensures Exact(Interfere(w, a), log + [a.body]) <==> NoteFits(w, a)
  {
    if w.live.Some? {
      var o := w.live.value;
      var base := VersionRead(w, o, a.read).status;
      assert Entries(MergeStatus(o.status, base, Noted(base, a.body))) == Entries(base) + [a.body] by {
        assert base.reloadStatus != Some(Entries(base) + [a.body]);
      }
      assert Interfere(w, a).live.Some?;
      assert (Entries(base) + [a.body])[..|Entries(base)|] == Entries(base);
      assert (log + [a.body])[..|log|] == log;
      if Entries(base) + [a.body] == log + [a.body] {
        assert |Entries(base)| == |log|;
      }
    }
  }

  lemma ActionExact(w: World, a: EnvAction, log: seq<string>)
    requires WellFormed(w) && Exact(w, log) && KeepsLog(a)
    ensures Exact(Interfere(w, a), log + NotedBy([a])) <==> NoteFits(w, a)
  {
    OneNoted(a);
    if a.NoteReload? { NoteExact(w, a, log); } else { assert log + [] == log; }
  }

  lemma {:induction false} ActionsExact(w: World, acts: seq<EnvAction>, log: seq<string>)
    requires WellFormed(w) && Exact(w, log)
    requires forall j :: 0 <= j < |acts| ==> KeepsLog(acts[j])
    ensures ExactThrough(w, acts, log) <==> NotesFit(w, acts)
    ensures ExactThrough(w, acts, log) ==> Exact(InterfereAll(w, acts), log + NotedBy(acts))
    decreases |acts|
  {
    if acts == [] {
      assert log + [] == log;
    } else {
      var w1, log1 := Interfere(w, acts[0]), log + NotedBy([acts[0]]);
      ActionExact(w, acts[0], log);
      InterfereExtends(w, acts[0]);
      if Exact(w1, log1) { ActionsExact(w1, acts[1..], log1); }
      FirstNoted(acts, log);
    }
  }

  lemma FirstNoted(acts: seq<EnvAction>, log: seq<string>)
    requires acts != []
    ensures log + NotedBy([acts[0]]) + NotedBy(acts[1..]) == log + NotedBy(acts)
  {
    Associative(log, NotedIn(acts[0]), NotedBy(acts[1..]));
    OneNoted(acts[0]);
  }

  lemma OneNoted(a: EnvAction)
    ensures NotedBy([a]) == NotedIn(a)
  {
    assert [a][1..] == [] && NotedIn(a) + [] == NotedIn(a);
  }

  lemma Associative<T>(a: seq<T>, b: seq<T>, c: seq<T>)
    ensures a + b + c == a + (b + c)
  {
  }

  /** The call itself, once the others have acted. */
  lemma StampExact(e: Env, t: Sys, log: seq<string>)
    requires WellFormed(t.world) && WellFormed(Arrive(e, Caller(t))) && e.kind.Table?
    requires Exact(Arrive(e, Caller(t)), log + NotedBy(Before(e, t)))
    ensures Exact(Step(e, t).world, LogAfter(e, t, log)) <==> StampFits(e, t)
  {
    StepWorld(e, t);
  }

  lemma StepExact(e: Env, t: Sys, log: seq<string>)
    requires WellFormed(t.world) && e.kind.Table? && OnlyNotesTouchLog(e) && Exact(t.world, log)
    ensures CallExact(e, t, log) <==> CallFits(e, t)
  {
    ArriveExtends(e, Caller(t));
    ActionsExact(Caller(t), Before(e, t), log);
    if ExactThrough(Caller(t), Before(e, t), log) { StampExact(e, t, log); }
  }

  // ------------------------------------------------------------------ whole runs

  /** The log is exact before, between and after all actions and calls up to call `n`. */
  ghost predicate ExactUpTo(e: Env, s: Sys, n: nat)
    requires |s.world.past| > 0
  {
    n == 0 || (ExactUpTo(e, s, n - 1) && CallExact(e, At(e, s, n - 1), SinceStamp(e, s, n - 1)))
  }

  predicate FitsUpTo(e: Env, s: Sys, n: nat)
    requires |s.world.past| > 0
  {
    n == 0 || (FitsUpTo(e, s, n - 1) && CallFits(e, At(e, s, n - 1)))
  }

  lemma ExactAt(e: Env, s: Sys, m: nat)
    requires Start(s) && e.kind.Table? && OnlyNotesTouchLog(e) && Exact(At(e, s, m).world, SinceStamp(e, s, m))
    ensures CallExact(e, At(e, s, m), SinceStamp(e, s, m)) <==> CallFits(e, At(e, s, m))
    ensures CallFits(e, At(e, s, m)) ==> Exact(At(e, s, m + 1).world, SinceStamp(e, s, m + 1))
  {
    RunKeepsInv(e, s, m);
    StepExact(e, At(e, s, m), SinceStamp(e, s, m));
  }

  /** Over every run and every interleaving of notes and status writes, each with any delay between
      its read and its write: the log is exact at all moments up to call `n` exactly if up to there
      every note fits the log it is written over and every status write fits the log it clears. So it
      is exact until the first write that misses an entry, and no longer. */
  lemma {:induction false} LogExactUntilFirstMiss(e: Env, s: Sys, n: nat)
    requires Start(s) && e.kind.Table? && OnlyNotesTouchLog(e)
    ensures ExactUpTo(e, s, n) <==> FitsUpTo(e, s, n)
    ensures FitsUpTo(e, s, n) ==> Exact(At(e, s, n).world, SinceStamp(e, s, n))
  {
    if n > 0 {
      var m: nat := n - 1;
      LogExactUntilFirstMiss(e, s, m);
      if FitsUpTo(e, s, m) { ExactAt(e, s, m); }
    }
  }

  // ------------------------------------------------------------------ atomic writers

  /** Every note reads the newest version. */
  predicate AtomicNotes(w: World, acts: seq<EnvAction>)
    requires |w.past| > 0
    decreases |acts|
  {
    acts == [] || ((acts[0].NoteReload? ==> acts[0].read >= |w.past| - 1) && AtomicNotes(Interfere(w, acts[0]), acts[1..]))
  }

  /** No writer of the log is interrupted between its read and its write. */
  predicate AtomicCall(e: Env, t: Sys)
    requires |t.world.past| > 0
  {
    && AtomicNotes(Caller(t), Before(e, t))
    && (t.pass.PatchRead? ==> e.tape(t.world.clock).read.Fresh?)
    && (t.pass.PatchWrite? ==> NotedBy(Before(e, t)) == [])
  }

  predicate AtomicUpTo(e: Env, s: Sys, n: nat)
    requires |s.world.past| > 0
  {
    n == 0 || (AtomicUpTo(e, s, n - 1) && AtomicCall(e, At(e, s, n - 1)))
  }

  predicate SnapshotIsCurrent(t: Sys) {
    t.pass.PatchWrite? && t.world.live.Some? ==>
      t.pass.copy.status.reloadStatus == t.world.live.value.status.reloadStatus
  }

  lemma {:induction false} AtomicNotesFit(w: World, acts: seq<EnvAction>)
    requires WellFormed(w) && AtomicNotes(w, acts)
    ensures NotesFit(w, acts)
    decreases |acts|
  {
    if acts != [] {
      InterfereExtends(w, acts[0]);
      AtomicNotesFit(Interfere(w, acts[0]), acts[1..]);
    }
  }

  lemma {:induction false} NoNotesNoChange(w: World, acts: seq<EnvAction>)
    requires |w.past| > 0 && NotedBy(acts) == []
    requires forall j :: 0 <= j < |acts| ==> KeepsLog(acts[j])
    ensures var r := InterfereAll(w, acts).live;
            r.Some? ==> w.live.Some? && r.value.status.reloadStatus == w.live.value.status.reloadStatus
    decreases |acts|
  {
    if acts != [] {
      assert KeepsLog(acts[0]) && !acts[0].NoteReload?;
      NoNotesNoChange(Interfere(w, acts[0]), acts[1..]);
    }
  }

  lemma AtomicCallFits(e: Env, t: Sys)
    requires WellFormed(t.world) && OnlyNotesTouchLog(e) && AtomicCall(e, t) && SnapshotIsCurrent(t)
    ensures CallFits(e, t) && SnapshotIsCurrent(Step(e, t))
  {
    AtomicNotesFit(Caller(t), Before(e, t));
    if t.pass.PatchWrite? { NoNotesNoChange(t.world, Before(e, t)); }
  }

  lemma AtomicAt(e: Env, s: Sys, m: nat)
    requires Start(s) && OnlyNotesTouchLog(e) && AtomicCall(e, At(e, s, m)) && SnapshotIsCurrent(At(e, s, m))
    ensures CallFits(e, At(e, s, m)) && SnapshotIsCurrent(At(e, s, m + 1))
  {
    RunKeepsInv(e, s, m);
    AtomicCallFits(e, At(e, s, m));
  }

  lemma {:induction false} AtomicRunFits(e: Env, s: Sys, n: nat)
    requires Start(s) && OnlyNotesTouchLog(e) && AtomicUpTo(e, s, n)
    ensures FitsUpTo(e, s, n) && SnapshotIsCurrent(At(e, s, n))
  {
    if n > 0 {
      var m: nat := n - 1;
      AtomicRunFits(e, s, m);
      AtomicAt(e, s, m);
    }
  }

  /** As long as no writer is interrupted between its read and its write, the reload log of the live
      object is the list of the answers noted since the controller's last status write. */
  lemma ReloadStatusIsLogSinceStamp(e: Env, s: Sys, n: nat)
    requires Start(s) && e.kind.Table? && OnlyNotesTouchLog(e) && AtomicUpTo(e, s, n)
    requires At(e, s, n).world.live.Some?
    ensures Entries(At(e, s, n).world.live.value.status) == SinceStamp(e, s, n)
  {
    AtomicRunFits(e, s, n);
    LogExactUntilFirstMiss(e, s, n);
  }

  // ------------------------------------------------------------------ the scan writes notes

  ghost predicate Tables(worlds: map<string, World>) {
    forall t :: t in worlds ==> WellFormed(worlds[t])
  }

  /** The logs of the tables that still exist. */
  function Logs(worlds: map<string, World>): map<string, seq<string>> {
    map t | t in worlds && worlds[t].live.Some? :: LogOf(worlds[t])
  }

  /** A reloaded table gets an atomic note. */
  function AfterNote(c: Codec, ev: Reload.Event, it: Reload.Item, worlds: map<string, World>): map<string, World>
    requires it.name in worlds ==> |worlds[it.name].past| > 0
  {
    if Reload.Reloads(c, ev, it) && it.name in worlds then
      var w := worlds[it.name];
      worlds[it.name := Interfere(w, NoteReload(|w.past|, it.calls.reply.body))]
    else worlds
  }

  lemma NoteReaches(w: World, body: string)
    requires WellFormed(w)
    ensures var r := Interfere(w, NoteReload(|w.past|, body));
            && WellFormed(r)
            && (r.live.Some? <==> w.live.Some?)
            && (w.live.Some? ==> LogOf(r) == LogOf(w) + [body])
  {
    var note := NoteReload(|w.past|, body);
    InterfereExtends(w, note);
    NoteExact(w, note, LogOf(w));
  }

  lemma LogsUpdated(worlds: map<string, World>, name: string, w: World)
    requires name in worlds && (w.live.Some? <==> worlds[name].live.Some?)
    ensures Logs(worlds[name := w]) == if w.live.Some? then Logs(worlds)[name := LogOf(w)] else Logs(worlds)
  {
  }

  lemma ItemWritesNote(c: Codec, ev: Reload.Event, it: Reload.Item, worlds: map<string, World>)
    requires Tables(worlds)
    ensures Tables(AfterNote(c, ev, it, worlds))
    ensures Logs(AfterNote(c, ev, it, worlds)) == Reload.AfterReload(c, ev, it, Logs(worlds))
  {
    if Reload.Reloads(c, ev, it) && it.name in worlds {
      var w := worlds[it.name];
      NoteReaches(w, it.calls.reply.body);
      LogsUpdated(worlds, it.name, Interfere(w, NoteReload(|w.past|, it.calls.reply.body)));
    }
  }

  ghost function ScanWorlds(c: Codec, ev: Reload.Event, items: seq<Reload.Item>, worlds: map<string, World>): map<string, World>
    requires Tables(worlds)
  {
    if items == [] || Reload.Stops(c, ev, items[0]) then worlds else
    ItemWritesNote(c, ev, items[0], worlds);
    ScanWorlds(c, ev, items[1..], AfterNote(c, ev, items[0], worlds))
  }

  /** What the scan does to the logs of all tables is what its notes do to the tables' worlds. */
  lemma {:induction false} ScanWritesNotes(c: Codec, ev: Reload.Event, items: seq<Reload.Item>, worlds: map<string, World>,
                                           posts: seq<string>)
    requires Tables(worlds)
    ensures Logs(ScanWorlds(c, ev, items, worlds)) == Reload.Scan(c, ev, items, Reload.Log(posts, Logs(worlds))).reloadStatus
  {
    if items != [] {
      var log := Reload.Log(posts, Logs(worlds));
      ItemWritesNote(c, ev, items[0], worlds);
      if !Reload.Stops(c, ev, items[0]) {
        ScanWritesNotes(c, ev, items[1..], AfterNote(c, ev, items[0], worlds), Reload.AfterItem(c, ev, items[0], log).posts);
      }
    }
  }
}
