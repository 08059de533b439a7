/** From a schema pass to the tables: what the status that a schema reconcile leaves makes the reload
    scan of the table controller do. */
module SchemaToTables {
  import opened Json
  import opened Protocol
  import opened Safety
  import opened PassOutcomes
  import opened Reload

  /** What the scan reads of the schema that a pass leaves. */
  function EventAfter(e: Env, w: World): Event
    requires |w.past| > 0 && Protocol.Reconcile(e, w).live.Some?
  {
    var o := Protocol.Reconcile(e, w).live.value;
    Event(o.status.message, o.spec.json)
  }

  /** A table with reload on whose lookups succeed, naming schema `name` or another one. */
  predicate Listens(c: Codec, ev: Event, it: Item) { it.spec.segmentReload && Readable(c, ev, it) }

  lemma {:induction false} ScanReaches(c: Codec, ev: Event, items: seq<Item>, k: nat)
    requires k < |items| && ev.message == "PinotSchemaControllerUpdateSuccess"
    requires forall n :: 0 <= n < k ==> Listens(c, ev, items[n]) && !Names(c, ev, items[n])
    requires Listens(c, ev, items[k]) && Names(c, ev, items[k]) && items[k].calls.reply.Answer? && items[k].calls.patched
    ensures Scanned(c, ev, items) > k && Reloads(c, ev, items[k])
    ensures ReloadedNames(c, ev, items[..Scanned(c, ev, items)]) != []
    ensures ReloadedNames(c, ev, items[..Scanned(c, ev, items)])[0] == items[k].name
  {
    ReadableIsPrepared(c, ev, items[0]);
    var n := Scanned(c, ev, items[1..]);
    assert items[..n + 1] == [items[0]] + items[1..][..n];
    assert ([items[0]] + items[1..][..n])[1..] == items[1..][..n];
    if k > 0 { ScanReaches(c, ev, items[1..], k - 1); }
  }

  lemma FirstListenerReloads(c: Codec, ev: Event, items: seq<Item>, k: nat, log: Log)
    requires k < |items| && DistinctNames(items) && ev.message == "PinotSchemaControllerUpdateSuccess"
    requires forall n :: 0 <= n < k ==> Listens(c, ev, items[n]) && !Names(c, ev, items[n])
    requires Listens(c, ev, items[k]) && Names(c, ev, items[k])
    requires items[k].calls.reply.Answer? && items[k].calls.patched && items[k].name in log.reloadStatus
    ensures var r, t := Scan(c, ev, items, log), items[k].name;
            && |r.posts| > |log.posts| && r.posts[..|log.posts|] == log.posts && r.posts[|log.posts|] == t
            && t in r.reloadStatus && r.reloadStatus[t] == log.reloadStatus[t] + [items[k].calls.reply.body]
  {
    ScanReaches(c, ev, items, k);
    ScanReloadsExactly(c, ev, items, log);
    assert items[..Scanned(c, ev, items)][k] == items[k];
  }

  /** After a schema pass whose update Pinot accepted, the scan asks first for the reload of the first
      listed table that names the schema, and notes the answer at the end of that table's log. */
  lemma AcceptedUpdateReloads(e: Env, w: World, o: CR, name: string, items: seq<Item>, k: nat, log: Log)
    requires Lawful(e.codec) && PassOver(e, w, o, name) && e.kind.Schema? && CallsForUpdate(e, w, o)
    requires SendReply(e, w).Answer? && SendReply(e, w).code == 200
    requires Protocol.Reconcile(e, w).live.Some?
    requires k < |items| && DistinctNames(items)
    requires var c, ev := e.codec, EventAfter(e, w);
             && (forall n :: 0 <= n < k ==> Listens(c, ev, items[n]) && !Names(c, ev, items[n]))
             && Listens(c, ev, items[k]) && Names(c, ev, items[k])
    requires items[k].calls.reply.Answer? && items[k].calls.patched && items[k].name in log.reloadStatus
    ensures var r, t := Scan(e.codec, EventAfter(e, w), items, log), items[k].name;
            && |r.posts| > |log.posts| && r.posts[..|log.posts|] == log.posts && r.posts[|log.posts|] == t
            && t in r.reloadStatus && r.reloadStatus[t] == log.reloadStatus[t] + [items[k].calls.reply.body]
  {
    UpdateOutcome(e, w, o, name);
    SchemaMessages();
    FirstListenerReloads(e.codec, EventAfter(e, w), items, k, log);
  }

  /** The event names the schema that the pass was about. */
  lemma EventNamesTheSchema(e: Env, w: World, o: CR, name: string)
    requires Lawful(e.codec) && PassOver(e, w, o, name) && e.kind.Schema? && CallsForUpdate(e, w, o)
    requires SendReply(e, w).Answer? && Protocol.Reconcile(e, w).live.Some?
    ensures GetValueFromJson(e.codec, EventAfter(e, w).json, "schemaName") == Some(name)
  {
    UpdateOutcome(e, w, o, name);
    KeysSpelled();
  }

  /** After a pass that created or adopted the schema, or whose update Pinot refused, the scan does nothing. */
  lemma OtherOutcomesReloadNothing(e: Env, w: World, o: CR, name: string, items: seq<Item>, log: Log)
    requires Lawful(e.codec) && PassOver(e, w, o, name) && e.kind.Schema?
    requires || (SaysAbsent(e.kind, GetReply(e, w)) && SendReply(e, w).Answer?)
             || (SaysPresent(e.kind, GetReply(e, w)) && o.status.currentJson == "")
             || (CallsForUpdate(e, w, o) && SendReply(e, w).Answer? && SendReply(e, w).code != 200)
    ensures Protocol.Reconcile(e, w).live.Some? && Scan(e.codec, EventAfter(e, w), items, log) == log
  {
    SchemaMessages();
    SchemaFailures();
    if SaysAbsent(e.kind, GetReply(e, w)) {
      CreationOutcome(e, w, o, name);
    } else if o.status.currentJson == "" {
      AdoptionOutcome(e, w, o, name);
    } else {
      UpdateOutcome(e, w, o, name);
    }
    MessagesDiffer();
    NothingWithoutUpdate(e.codec, EventAfter(e, w), items, log);
  }

  lemma MessagesDiffer()
    ensures "PinotSchemaControllerCreateSuccess" != "PinotSchemaControllerUpdateSuccess"
    ensures "PinotSchemaControllerCreateFail" != "PinotSchemaControllerUpdateSuccess"
    ensures "PinotSchemaControllerUpdateFail" != "PinotSchemaControllerUpdateSuccess"
  {
    assert "PinotSchemaControllerCreateSuccess"[21] == 'C' && "PinotSchemaControllerUpdateSuccess"[21] == 'U';
    assert "PinotSchemaControllerCreateFail"[21] == 'C';
    assert |"PinotSchemaControllerUpdateFail"| != |"PinotSchemaControllerUpdateSuccess"|;
  }
}
