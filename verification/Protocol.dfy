/** The reconcile protocol of the schema, table and tenant controllers, one call at a time.

    A `World` is everything outside the controller: the API server's object with all the versions
    it ever had, the Pinot store, and logs of what was sent and committed. A `Pass` is the
    controller's own position inside one reconcile, together with its in-memory copy. `Step` makes
    exactly one call. What happens around a call and how it ends is read from a tape, so a statement
    about every tape is a statement about every interleaving and every outcome. */
module Protocol {
  import opened Json

  datatype Kind = Schema | Table | Tenant

  datatype Spec = Spec(pinotCluster: string, json: string, segmentReload: bool)

  /** `reloadStatus` is used by tables only; `None` is the nil slice of a status never written. */
  datatype Status = Status(
    currentJson: string,
    message: string,
    reason: string,
    condition: string,
    conditionType: string,
    lastUpdateTime: nat,
    reloadStatus: Option<seq<string>>)

  datatype CR = CR(spec: Spec, status: Status, finalizers: seq<string>, deleting: bool, version: nat)

  // ------------------------------------------------------------------ constants

  function Prefix(k: Kind): string {
    match k
    case Schema => "PinotSchemaController"
    case Table => "PinotTableController"
    case Tenant => "PinotTenantController"
  }

  function CreateSuccess(k: Kind): string { Prefix(k) + "CreateSuccess" }
  function CreateFail(k: Kind): string { Prefix(k) + "CreateFail" }
  function UpdateSuccess(k: Kind): string { Prefix(k) + "UpdateSuccess" }
  function UpdateFail(k: Kind): string { Prefix(k) + "UpdateFail" }

  function FinalizerOf(k: Kind): string {
    match k
    case Schema => "pinotschema.datainfra.io/finalizer"
    case Table => "pinottable.datainfra.io/finalizer"
    case Tenant => "pinottenant.datainfra.io/finalizer"
  }

  function NameKey(k: Kind): string {
    match k
    case Schema => "schemaName"
    case Table => "tableName"
    case Tenant => "tenantName"
  }

  // ------------------------------------------------------------------ the tape

  /** Something another party does between two calls of the controller. `NoteReload` is the write half
      of the status patch of the reload scan, which had read version number `read` of the object, or
      the present one if there is no such version. */
  datatype EnvAction =
    | EditSpec(spec: Spec)
    | MarkDeleted
    | EditFinalizers(finalizers: seq<string> -> seq<string>)
    | EditStatus(status: Status -> Status)
    | NoteReload(read: nat, body: string)
    | PinotWrite(name: string, json: string)
    | PinotDrop(name: string)

  /** Reads are served from a cache, so any earlier version may come back. */
  datatype ReadOutcome = Fresh | Stale(index: nat) | Missing | ReadError

  datatype WriteOutcome = Done | Failed(applied: bool)

  /** `Lost` is a transport error; the request may still have been carried out. */
  datatype Reply = Lost(applied: bool) | Answer(code: int, body: string)

  datatype Turn = Turn(
    before: seq<EnvAction>,
    read: ReadOutcome,
    write: WriteOutcome,
    reply: Reply,
    now: nat)

  datatype Env = Env(kind: Kind, codec: Codec, tape: nat -> Turn)

  function Finalizer(e: Env): string { FinalizerOf(e.kind) }

  function NameOf(e: Env, json: string): Option<string> {
    GetValueFromJson(e.codec, json, NameKey(e.kind))
  }

  // ------------------------------------------------------------------ the world

  /** What the current pass has sent and committed so far. */
  datatype Tally = Tally(statusWrites: nat, finalizerWrites: nat, posts: nat, puts: nat, rejectedPuts: nat)

  const NOTHING := Tally(0, 0, 0, 0, 0)

  /** One DELETE sent to Pinot: was the object marked at that moment, did a reply come back. */
  datatype DeleteRecord = DeleteRecord(name: string, marked: bool, answered: bool)

  datatype World = World(
    live: Option<CR>,
    past: seq<CR>,
    pinot: map<string, string>,
    tally: Tally,
    deletes: seq<DeleteRecord>,
    clock: nat)

  function Latest(w: World): CR
    requires |w.past| > 0
  {
    w.past[|w.past| - 1]
  }

  /** Every stored version is new, and the object goes away once it is marked and has no finalizer. */
  function Commit(w: World, o: CR): World
    requires |w.past| > 0
  {
    var next := o.(version := Latest(w).version + 1);
    w.(past := w.past + [next],
       live := if next.deleting && next.finalizers == [] then None else Some(next))
  }

  function Interfere(w: World, a: EnvAction): World
    requires |w.past| > 0
  {
    match a
    case PinotWrite(name, json) => w.(pinot := w.pinot[name := json])
    case PinotDrop(name) => w.(pinot := w.pinot - {name})
    case MarkDeleted =>
      if w.live.None? || w.live.value.deleting then w else Commit(w, w.live.value.(deleting := true))
    case EditSpec(spec) =>
      if w.live.None? then w else Commit(w, w.live.value.(spec := spec))
    case EditFinalizers(f) =>
      if w.live.None? then w else Commit(w, w.live.value.(finalizers := f(w.live.value.finalizers)))
    case EditStatus(f) =>
      if w.live.None? then w else Commit(w, w.live.value.(status := f(w.live.value.status)))
    case NoteReload(read, body) =>
      if w.live.None? then w else
      var o, base := w.live.value, VersionRead(w, w.live.value, read).status;
      Commit(w, o.(status := MergeStatus(o.status, base, Noted(base, body))))
  }

  function VersionRead(w: World, o: CR, read: nat): CR {
    if read < |w.past| then w.past[read] else o
  }

  /** A nil list reads as the empty one. */
  function Entries(st: Status): seq<string> {
    if st.reloadStatus.None? then [] else st.reloadStatus.value
  }

  function Noted(st: Status, body: string): Status {
    st.(reloadStatus := Some(Entries(st) + [body]))
  }

  function InterfereAll(w: World, acts: seq<EnvAction>): (r: World)
    requires |w.past| > 0
    ensures |r.past| > 0
    decreases |acts|
  {
    if acts == [] then w else InterfereAll(Interfere(w, acts[0]), acts[1..])
  }

  /** The world as the next call finds it. */
  function Arrive(e: Env, w: World): (r: World)
    requires |w.past| > 0
    ensures |r.past| > 0
  {
    InterfereAll(w, e.tape(w.clock).before).(clock := w.clock + 1)
  }

  // ------------------------------------------------------------------ the calls

  function Snapshot(w: World, outcome: ReadOutcome): Option<CR> {
    match outcome
    case Fresh => w.live
    case Stale(i) => if i < |w.past| then Some(w.past[i]) else w.live
    case Missing => None
    case ReadError => None
  }

  function ReadObject(e: Env, w: World): Option<CR>
    requires |w.past| > 0
  {
    Snapshot(Arrive(e, w), e.tape(w.clock).read)
  }

  /** Service and credential lookup: reads that either succeed or abort the pass. */
  predicate LookupFound(e: Env, w: World) {
    var r := e.tape(w.clock).read;
    r.Fresh? || r.Stale?
  }

  datatype Note = Note(message: string, reason: string, conditionType: string)

  /** The status a controller wants to write, computed from the object it has just read. */
  function Stamp(k: Kind, o: CR, note: Note, now: nat): Status {
    Status(o.spec.json, note.message, note.reason, "True", note.conditionType, now,
           if k.Table? then Some([]) else o.status.reloadStatus)
  }

  /** A merge patch carries only the fields in which `target` differs from `base`. */
  function MergeStatus(current: Status, base: Status, target: Status): Status {
    Status(
      if base.currentJson == target.currentJson then current.currentJson else target.currentJson,
      if base.message == target.message then current.message else target.message,
      if base.reason == target.reason then current.reason else target.reason,
      if base.condition == target.condition then current.condition else target.condition,
      if base.conditionType == target.conditionType then current.conditionType else target.conditionType,
      if base.lastUpdateTime == target.lastUpdateTime then current.lastUpdateTime else target.lastUpdateTime,
      if base.reloadStatus == target.reloadStatus then current.reloadStatus else target.reloadStatus)
  }

  predicate PatchSucceeds(e: Env, w: World)
    requires |w.past| > 0
  {
    Arrive(e, w).live.Some? && e.tape(w.clock).write.Done?
  }

  function PatchObject(e: Env, w: World, base: Status, target: Status): World
    requires |w.past| > 0
  {
    var a := Arrive(e, w);
    var outcome := e.tape(w.clock).write;
    if a.live.None? || outcome == Failed(false) then a else
    var o := a.live.value;
    Commit(a, o.(status := MergeStatus(o.status, base, target)))
      .(tally := a.tally.(statusWrites := a.tally.statusWrites + 1))
  }

  /** A full update is refused on a version mismatch and never touches the status. */
  function UpdateObject(e: Env, w: World, copy: CR): World
    requires |w.past| > 0
  {
    var a := Arrive(e, w);
    var outcome := e.tape(w.clock).write;
    if a.live.None? || outcome == Failed(false) || a.live.value.version != copy.version then a else
    var o := a.live.value;
    Commit(a, o.(spec := copy.spec, finalizers := copy.finalizers))
      .(tally := a.tally.(finalizerWrites := a.tally.finalizerWrites + 1))
  }

  function ReplyOf(e: Env, w: World): Reply { e.tape(w.clock).reply }

  predicate Applied(r: Reply) { r == Lost(true) || (r.Answer? && r.code == 200) }

  function GetEntity(e: Env, w: World): World
    requires |w.past| > 0
  {
    Arrive(e, w)
  }

  function PostEntity(e: Env, w: World, name: string, json: string): World
    requires |w.past| > 0
  {
    var a := Arrive(e, w);
    a.(pinot := if Applied(ReplyOf(e, w)) then a.pinot[name := json] else a.pinot,
       tally := a.tally.(posts := a.tally.posts + 1))
  }

  function PutEntity(e: Env, w: World, name: string, json: string): World
    requires |w.past| > 0
  {
    var a := Arrive(e, w);
    var r := ReplyOf(e, w);
    a.(pinot := if Applied(r) then a.pinot[name := json] else a.pinot,
       tally := a.tally.(puts := a.tally.puts + 1,
                         rejectedPuts := a.tally.rejectedPuts + if r.Answer? && r.code != 200 then 1 else 0))
  }

  function DeleteEntity(e: Env, w: World, name: string): World
    requires |w.past| > 0
  {
    var a := Arrive(e, w);
    var r := ReplyOf(e, w);
    a.(pinot := if Applied(r) then a.pinot - {name} else a.pinot,
       deletes := a.deletes + [DeleteRecord(name, Latest(a).deleting, r.Answer?)])
  }

  // ------------------------------------------------------------------ one pass

  datatype Pass =
    | Idle
    | Lookup(copy: CR)
    | Get(copy: CR, name: string)
    | Post(copy: CR, name: string)
    | PatchRead(name: string, note: Note, adopting: bool)
    | PatchWrite(copy: CR, name: string, note: Note, adopting: bool)
    | Put(copy: CR, name: string, found: string)
    | AddFinalizer(copy: CR)
    | LookupAgain(copy: CR)
    | Delete(copy: CR, name: string)
    | RemoveFinalizer(copy: CR)

  datatype Sys = Sys(world: World, pass: Pass)

  predicate ReportsAbsent(k: Kind, r: Reply) {
    r.Answer? && if k.Table? then r.body == "{}" else r.code == 404
  }

  predicate ReportsPresent(k: Kind, r: Reply) {
    r.Answer? && if k.Table? then r.body != "{}" else r.code == 200
  }

  function CreateNote(k: Kind, r: Reply): Note
    requires r.Answer?
  {
    if r.code == 200 || k.Table?
    then Note(CreateSuccess(k), r.body, CreateSuccess(k))
    else Note(CreateFail(k), r.body, CreateFail(k))
  }

  function AdoptNote(k: Kind, found: string): Note {
    Note(CreateSuccess(k), found, if k.Schema? then UpdateSuccess(k) else CreateSuccess(k))
  }

  function UpdateNote(k: Kind, found: string, r: Reply): Note
    requires r.Answer?
  {
    if r.code == 200
    then Note(UpdateSuccess(k), r.body, UpdateSuccess(k))
    else Note(UpdateFail(k), if k.Schema? then found else r.body, UpdateFail(k))
  }

  /** The finalizer stage, decided on the in-memory copy. */
  function Finalize(e: Env, copy: CR): Pass {
    if !copy.deleting then
      if Finalizer(e) in copy.finalizers then Idle else AddFinalizer(copy)
    else
      if Finalizer(e) in copy.finalizers then LookupAgain(copy) else Idle
  }

  /** The comparison of recorded and wanted JSON, decided on the in-memory copy. */
  function Compare(e: Env, copy: CR, name: string, found: string): Pass {
    match IsEqualJson(e.codec, copy.status.currentJson, copy.spec.json)
    case None => Idle
    case Some(same) => if same then Finalize(e, copy) else Put(copy, name, found)
  }

  function AfterGet(e: Env, copy: CR, name: string, r: Reply): Pass {
    if ReportsAbsent(e.kind, r) then Post(copy, name)
    else if ReportsPresent(e.kind, r) then
      if !e.kind.Tenant? && copy.status.currentJson == ""
      then PatchRead(name, AdoptNote(e.kind, r.body), true)
      else Compare(e, copy, name, r.body)
    else if r.Lost? then Idle
    else Finalize(e, copy)
  }

  function Without(fs: seq<string>, f: string): seq<string> {
    if fs == [] then [] else (if fs[0] == f then [] else [fs[0]]) + Without(fs[1..], f)
  }

  function Step(e: Env, s: Sys): (r: Sys)
    requires |s.world.past| > 0
    ensures |r.world.past| > 0
  {
    var w := s.world;
    match s.pass
    case Idle =>
      var w0 := w.(tally := NOTHING);
      var o := ReadObject(e, w0);
      Sys(Arrive(e, w0), if o.None? then Idle else Lookup(o.value))
    case Lookup(copy) =>
      var name := NameOf(e, copy.spec.json);
      Sys(Arrive(e, w), if !LookupFound(e, w) || name.None? then Idle else Get(copy, name.value))
    case Get(copy, name) =>
      Sys(GetEntity(e, w), AfterGet(e, copy, name, ReplyOf(e, w)))
    case Post(copy, name) =>
      var r := ReplyOf(e, w);
      Sys(PostEntity(e, w, name, copy.spec.json),
          if r.Lost? then Idle else PatchRead(name, CreateNote(e.kind, r), false))
    case PatchRead(name, note, adopting) =>
      var o := ReadObject(e, w);
      Sys(Arrive(e, w), if o.None? then Idle else PatchWrite(o.value, name, note, adopting))
    case PatchWrite(copy, name, note, adopting) =>
      var target := Stamp(e.kind, copy, note, e.tape(w.clock).now);
      Sys(PatchObject(e, w, copy.status, target),
          if !PatchSucceeds(e, w) then Idle
          else if adopting then Compare(e, copy, name, note.reason)
          else Finalize(e, copy))
    case Put(copy, name, found) =>
      var r := ReplyOf(e, w);
      Sys(PutEntity(e, w, name, copy.spec.json),
          if r.Lost? then Idle
          else if r.code != 200 && e.kind.Tenant? then Finalize(e, copy)
          else PatchRead(name, UpdateNote(e.kind, found, r), false))
    case AddFinalizer(copy) =>
      Sys(UpdateObject(e, w, copy.(finalizers := copy.finalizers + [Finalizer(e)])), Idle)
    case LookupAgain(copy) =>
      var name := NameOf(e, copy.spec.json);
      Sys(Arrive(e, w), if !LookupFound(e, w) || name.None? then Idle else Delete(copy, name.value))
    case Delete(copy, name) =>
      Sys(DeleteEntity(e, w, name), if ReplyOf(e, w).Lost? then Idle else RemoveFinalizer(copy))
    case RemoveFinalizer(copy) =>
      Sys(UpdateObject(e, w, copy.(finalizers := Without(copy.finalizers, Finalizer(e)))), Idle)
  }

  /** The state after `n` calls. */
  function At(e: Env, s: Sys, n: nat): (r: Sys)
    requires |s.world.past| > 0
    ensures |r.world.past| > 0
  {
    if n == 0 then s else Step(e, At(e, s, n - 1))
  }

  /** How many calls a pass can still make. */
  function Remaining(p: Pass): nat {
    match p
    case Idle => 0
    case RemoveFinalizer(_) => 1
    case AddFinalizer(_) => 1
    case Delete(_, _) => 2
    case LookupAgain(_) => 3
    case PatchWrite(_, _, _, adopting) => if adopting then 7 else 4
    case PatchRead(_, _, adopting) => if adopting then 8 else 5
    case Put(_, _, _) => 6
    case Post(_, _) => 6
    case Get(_, _) => 9
    case Lookup(_) => 10
  }

  /** Runs a pass that is under way to its end. */
  function Finish(e: Env, s: Sys): (r: Sys)
    requires |s.world.past| > 0
    ensures |r.world.past| > 0 && r.pass.Idle?
    decreases Remaining(s.pass)
  {
    if s.pass.Idle? then s else Finish(e, Step(e, s))
  }

  /** One whole reconcile. */
  function Reconcile(e: Env, w: World): (r: World)
    requires |w.past| > 0
    ensures |r.past| > 0
  {
    Finish(e, Step(e, Sys(w, Idle))).world
  }

  // ------------------------------------------------------------------ constants, spelled out

  lemma KeysSpelled()
    ensures FinalizerOf(Schema) == "pinotschema.datainfra.io/finalizer"
    ensures FinalizerOf(Table) == "pinottable.datainfra.io/finalizer"
    ensures FinalizerOf(Tenant) == "pinottenant.datainfra.io/finalizer"
    ensures NameKey(Schema) == "schemaName" && NameKey(Table) == "tableName" && NameKey(Tenant) == "tenantName"
  {
  }

  lemma SchemaMessages()
    ensures CreateSuccess(Schema) == "PinotSchemaControllerCreateSuccess"
    ensures UpdateSuccess(Schema) == "PinotSchemaControllerUpdateSuccess"
  {
  }

  lemma SchemaFailures()
    ensures CreateFail(Schema) == "PinotSchemaControllerCreateFail"
    ensures UpdateFail(Schema) == "PinotSchemaControllerUpdateFail"
  {
  }

  lemma TableMessages()
    ensures CreateSuccess(Table) == "PinotTableControllerCreateSuccess"
    ensures UpdateSuccess(Table) == "PinotTableControllerUpdateSuccess"
    ensures UpdateFail(Table) == "PinotTableControllerUpdateFail"
  {
  }

  lemma TenantMessages()
    ensures CreateSuccess(Tenant) == "PinotTenantControllerCreateSuccess"
    ensures UpdateSuccess(Tenant) == "PinotTenantControllerUpdateSuccess"
    ensures CreateFail(Tenant) == "PinotTenantControllerCreateFail"
  {
  }
}
