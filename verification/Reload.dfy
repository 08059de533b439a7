/** The segment reload scan: an update of a schema makes the table controller walk over all tables
    of the namespace and note the reloads it triggered in another controller's status. */
module Reload {
  import opened Json
  import opened Protocol

  /** What the calls made for one table come to. */
  datatype Calls = Calls(serviceFound: bool, credentialsFound: bool, reply: Reply, patched: bool)

  /** One item of the list the scan received, with its calls. */
  datatype Item = Item(name: string, spec: Spec, calls: Calls)

  /** The schema event that started the scan, as read from the API server. */
  datatype Event = Event(message: string, json: string)

  function TableSchema(c: Codec, spec: Spec): Option<string> {
    match GetValueFromJson(c, spec.json, "segmentsConfig")
    case None => None
    case Some(config) => GetValueFromJson(c, config, "schemaName")
  }

  /** Every lookup that precedes the comparison of schema names. */
  predicate Prepared(c: Codec, ev: Event, it: Item) {
    && it.calls.serviceFound
    && TableSchema(c, it.spec).Some?
    && GetValueFromJson(c, ev.json, "schemaName").Some?
    && GetValueFromJson(c, it.spec.json, "tableName").Some?
    && it.calls.credentialsFound
  }

  predicate UsesSchema(c: Codec, ev: Event, it: Item) {
    Prepared(c, ev, it) && TableSchema(c, it.spec) == GetValueFromJson(c, ev.json, "schemaName")
  }

  predicate Updated(ev: Event) { ev.message == UpdateSuccess(Schema) }

  /** The scan ends at this item. */
  predicate Stops(c: Codec, ev: Event, it: Item) {
    || !it.spec.segmentReload
    || (Updated(ev) && (!Prepared(c, ev, it) ||
                        (UsesSchema(c, ev, it) && (it.calls.reply.Lost? || !it.calls.patched))))
  }

  /** The item's reload is requested and recorded, and the scan goes on. */
  predicate Reloads(c: Codec, ev: Event, it: Item) {
    Updated(ev) && UsesSchema(c, ev, it) && !Stops(c, ev, it)
  }

  datatype Log = Log(posts: seq<string>, reloadStatus: map<string, seq<string>>)

  /** Statuses by table name; `posts` lists the tables whose reload was requested from Pinot. */
  class Tables {
    var reloadStatus: map<string, seq<string>>
    var posts: seq<string>

    function State(): Log
      reads this
    {
      Log(posts, reloadStatus)
    }

    constructor (reloadStatus: map<string, seq<string>>)
      ensures this.reloadStatus == reloadStatus && posts == []
    {
      this.reloadStatus, posts := reloadStatus, [];
    }

    method Post(it: Item) returns (r: Reply)
      modifies this`posts
      ensures r == it.calls.reply && posts == old(posts) + [it.name]
    {
      posts := posts + [it.name];
      r := it.calls.reply;
    }

    /** The atomic `PatchStatus` that appends one entry. */
    method AppendReload(it: Item, body: string) returns (ok: bool)
      requires it.calls.patched ==> it.name in reloadStatus
      modifies this`reloadStatus
      ensures ok == it.calls.patched
      ensures reloadStatus == if ok then Appended(old(reloadStatus), it.name, body) else old(reloadStatus)
    {
      ok := it.calls.patched;
      if ok { reloadStatus := reloadStatus[it.name := reloadStatus[it.name] + [body]]; }
    }
  }

  function Appended(m: map<string, seq<string>>, name: string, body: string): map<string, seq<string>>
    requires name in m
  {
    m[name := m[name] + [body]]
  }

  // ------------------------------------------------------------------ specification

  /** Whether a reload of this item is requested from Pinot. */
  predicate Requested(c: Codec, ev: Event, it: Item) {
    it.spec.segmentReload && Updated(ev) && UsesSchema(c, ev, it)
  }

  function AfterReload(c: Codec, ev: Event, it: Item, m: map<string, seq<string>>): map<string, seq<string>> {
    if Reloads(c, ev, it) && it.name in m then Appended(m, it.name, it.calls.reply.body) else m
  }

  function AfterItem(c: Codec, ev: Event, it: Item, log: Log): Log {
    Log(log.posts + (if Requested(c, ev, it) then [it.name] else []), AfterReload(c, ev, it, log.reloadStatus))
  }

  /** The scan as a function: item by item, up to and including the first that ends it. */
  function Scan(c: Codec, ev: Event, items: seq<Item>, log: Log): Log {
    if items == [] then log
    else if Stops(c, ev, items[0]) then AfterItem(c, ev, items[0], log)
    else Scan(c, ev, items[1..], AfterItem(c, ev, items[0], log))
  }

  /** The number of items before the first one that ends the scan. */
  function Scanned(c: Codec, ev: Event, items: seq<Item>): (k: nat)
    ensures k <= |items|
  {
    if items == [] || Stops(c, ev, items[0]) then 0 else 1 + Scanned(c, ev, items[1..])
  }

  function ReloadedNames(c: Codec, ev: Event, items: seq<Item>): seq<string> {
    if items == [] then [] else
    (if Reloads(c, ev, items[0]) then [items[0].name] else []) + ReloadedNames(c, ev, items[1..])
  }

  /** The POST that was sent for the item that ended the scan, if any. */
  function LastPost(c: Codec, ev: Event, items: seq<Item>, k: nat): seq<string> {
    if k < |items| && Requested(c, ev, items[k]) then [items[k].name] else []
  }

  ghost predicate DistinctNames(items: seq<Item>) {
    forall a, b :: 0 <= a < b < |items| ==> items[a].name != items[b].name
  }

  /** A patch can only succeed on a table that exists. */
  ghost predicate Listed(items: seq<Item>, m: map<string, seq<string>>) {
    forall n :: 0 <= n < |items| && items[n].calls.patched ==> items[n].name in m
  }

  ghost predicate Untouched(c: Codec, ev: Event, items: seq<Item>, t: string) {
    forall n :: 0 <= n < |items| && items[n].name == t ==> !Reloads(c, ev, items[n])
  }

  /** The log of table `t` gained exactly one entry, at the end, if `t` was reloaded, and none otherwise. */
  ghost predicate EntryFor(c: Codec, ev: Event, items: seq<Item>, t: string, before: seq<string>, after: seq<string>) {
    && (forall n :: 0 <= n < |items| && Reloads(c, ev, items[n]) && items[n].name == t ==>
          after == before + [items[n].calls.reply.body])
    && (Untouched(c, ev, items, t) ==> after == before)
  }

  ghost predicate OneEntryEach(c: Codec, ev: Event, items: seq<Item>, before: map<string, seq<string>>, after: map<string, seq<string>>) {
    after.Keys == before.Keys && forall t :: t in before ==> EntryFor(c, ev, items, t, before[t], after[t])
  }

  // ------------------------------------------------------------------ the scan

  /** The loop body: `false` is the early return. */
  method ScanTable(c: Codec, ev: Event, table: Item, tables: Tables) returns (goOn: bool)
    requires table.calls.patched ==> table.name in tables.reloadStatus
    modifies tables
    ensures goOn <==> !Stops(c, ev, table)
    ensures tables.State() == AfterItem(c, ev, table, old(tables.State()))
  {
    if table.spec.segmentReload {
      if ev.message == UpdateSuccess(Schema) {
        if !table.calls.serviceFound { return false; }
        var segmentsConfig := LookUp(c, table.spec.json, "segmentsConfig");
        if segmentsConfig.None? { return false; }
        var schemaNameInTable := LookUp(c, segmentsConfig.value, "schemaName");
        if schemaNameInTable.None? { return false; }
        var schemaNameInEvent := LookUp(c, ev.json, "schemaName");
        if schemaNameInEvent.None? { return false; }
        var tableName := LookUp(c, table.spec.json, "tableName");
        if tableName.None? { return false; }
        if !table.calls.credentialsFound { return false; }
        if schemaNameInTable.value == schemaNameInEvent.value {
          var reply := tables.Post(table);
          if reply.Lost? { return false; }
          var ok := tables.AppendReload(table, reply.body);
          if !ok { return false; }
        }
      }
    } else {
      return false;
    }
    return true;
  }

  /** The loop over the listed tables. */
  method ScanTables(c: Codec, ev: Event, items: seq<Item>, tables: Tables) returns (enqueue: bool)
    requires Listed(items, tables.reloadStatus)
    modifies tables
    ensures !enqueue && tables.State() == Scan(c, ev, items, old(tables.State()))
  {
    for i := 0 to |items|
      invariant Listed(items, tables.reloadStatus)
      invariant Scan(c, ev, items, old(tables.State())) == Scan(c, ev, items[i..], tables.State())
    {
      assert items[i..][1..] == items[i + 1..];
      var goOn := ScanTable(c, ev, items[i], tables);
      if !goOn { return false; }
    }
    return false;
  }

  /** The `UpdateFunc` of the schema watch: the object may be on its way out, its schema may not be
      readable, its status time may lie ahead, the tables may not be listable. It never enqueues. */
  method UpdateFunc(c: Codec, deleting: bool, schema: Option<Event>, timePassed: bool, list: Option<seq<Item>>, tables: Tables)
    returns (enqueue: bool)
    requires list.Some? ==> Listed(list.value, tables.reloadStatus)
    modifies tables
    ensures !enqueue
    ensures tables.State() == if deleting || schema.None? || !timePassed || list.None? then old(tables.State())
                              else Scan(c, schema.value, list.value, old(tables.State()))
  {
    if deleting { return false; }
    if schema.None? { return false; }
    if timePassed {
      if list.None? { return false; }
      enqueue := ScanTables(c, schema.value, list.value, tables);
      return;
    }
    return false;
  }

  // ------------------------------------------------------------------ what a scan does

  lemma {:induction false} ScannedIsFirstStop(c: Codec, ev: Event, items: seq<Item>)
    ensures var k := Scanned(c, ev, items);
            && (forall n :: 0 <= n < k ==> !Stops(c, ev, items[n]))
            && (k < |items| ==> Stops(c, ev, items[k]))
  {
    if items != [] && !Stops(c, ev, items[0]) {
      ScannedIsFirstStop(c, ev, items[1..]);
      forall n | 0 <= n < Scanned(c, ev, items)
        ensures !Stops(c, ev, items[n])
      {
        if n > 0 { assert items[n] == items[1..][n - 1]; }
      }
    }
  }

  lemma ScanGoesOn(c: Codec, ev: Event, items: seq<Item>, log: Log)
    requires items != [] && !Stops(c, ev, items[0])
    ensures var rest := items[1..];
            var k := Scanned(c, ev, rest);
            && Scanned(c, ev, items) == k + 1
            && Scan(c, ev, items, log) == Scan(c, ev, rest, AfterItem(c, ev, items[0], log))
            && LastPost(c, ev, items, k + 1) == LastPost(c, ev, rest, k)
            && items[..k + 1] == [items[0]] + rest[..k]
  {
  }

  lemma {:induction false} ScanPosts(c: Codec, ev: Event, items: seq<Item>, log: Log)
    ensures var k := Scanned(c, ev, items);
            Scan(c, ev, items, log).posts == log.posts + ReloadedNames(c, ev, items[..k]) + LastPost(c, ev, items, k)
  {
    if items != [] && !Stops(c, ev, items[0]) {
      var it, rest := items[0], items[1..];
      var k := Scanned(c, ev, rest);
      ScanGoesOn(c, ev, items, log);
      ScanPosts(c, ev, rest, AfterItem(c, ev, it, log));
      FirstReloaded(c, ev, it, rest[..k]);
      Regroup(log.posts, if Requested(c, ev, it) then [it.name] else [], ReloadedNames(c, ev, rest[..k]), LastPost(c, ev, rest, k));
    }
  }

  lemma FirstReloaded(c: Codec, ev: Event, it: Item, rest: seq<Item>)
    requires !Stops(c, ev, it)
    ensures ReloadedNames(c, ev, [it] + rest)
              == (if Requested(c, ev, it) then [it.name] else []) + ReloadedNames(c, ev, rest)
  {
    assert ([it] + rest)[1..] == rest;
  }

  lemma Regroup<T>(a: seq<T>, b: seq<T>, c: seq<T>, d: seq<T>)
    ensures a + b + c + d == a + (b + c) + d
  {
  }

  lemma FirstEntry(c: Codec, ev: Event, it: Item, rest: seq<Item>, t: string, first: seq<string>, after: seq<string>)
    requires forall n :: 0 <= n < |rest| ==> rest[n].name != it.name
    requires EntryFor(c, ev, rest, t, if Reloads(c, ev, it) && it.name == t then first + [it.calls.reply.body] else first, after)
    ensures EntryFor(c, ev, [it] + rest, t, first, after)
  {
    var all := [it] + rest;
    assert all[0] == it && forall n :: 0 <= n < |rest| ==> rest[n] == all[n + 1];
    if it.name == t || Untouched(c, ev, all, t) {
      assert Untouched(c, ev, rest, t);
    }
  }

  lemma FirstEntries(c: Codec, ev: Event, it: Item, rest: seq<Item>, first: map<string, seq<string>>, after: map<string, seq<string>>)
    requires forall n :: 0 <= n < |rest| ==> rest[n].name != it.name
    requires OneEntryEach(c, ev, rest, AfterReload(c, ev, it, first), after)
    ensures OneEntryEach(c, ev, [it] + rest, first, after)
  {
    forall t | t in first
      ensures EntryFor(c, ev, [it] + rest, t, first[t], after[t])
    {
      FirstEntry(c, ev, it, rest, t, first[t], after[t]);
    }
  }

  lemma {:induction false} ScanEntries(c: Codec, ev: Event, items: seq<Item>, log: Log)
    requires DistinctNames(items)
    ensures OneEntryEach(c, ev, items[..Scanned(c, ev, items)], log.reloadStatus, Scan(c, ev, items, log).reloadStatus)
  {
    if items != [] && !Stops(c, ev, items[0]) {
      var it, rest := items[0], items[1..];
      ScanGoesOn(c, ev, items, log);
      ScanEntries(c, ev, rest, AfterItem(c, ev, it, log));
      FirstEntries(c, ev, it, rest[..Scanned(c, ev, rest)], log.reloadStatus, Scan(c, ev, items, log).reloadStatus);
    }
  }

  /** Over any list of tables with distinct names, the scan asks for the reload of exactly the tables
      that use the updated schema before the first one that ends the scan, in list order, and possibly
      of that last one; every one reloaded gains exactly one entry, at the end of its log, and no
      other log changes. */
  lemma ScanReloadsExactly(c: Codec, ev: Event, items: seq<Item>, log: Log)
    requires DistinctNames(items)
    ensures var k, r := Scanned(c, ev, items), Scan(c, ev, items, log);
            && (forall n :: 0 <= n < k ==> !Stops(c, ev, items[n]))
            && (k < |items| ==> Stops(c, ev, items[k]))
            && r.posts == log.posts + ReloadedNames(c, ev, items[..k]) + LastPost(c, ev, items, k)
            && OneEntryEach(c, ev, items[..k], log.reloadStatus, r.reloadStatus)
  {
    ScannedIsFirstStop(c, ev, items);
    ScanPosts(c, ev, items, log);
    ScanEntries(c, ev, items, log);
  }

  /** A schema whose last status is not a successful update reloads nothing. */
  lemma {:induction false} NothingWithoutUpdate(c: Codec, ev: Event, items: seq<Item>, log: Log)
    requires ev.message != "PinotSchemaControllerUpdateSuccess"
    ensures Scan(c, ev, items, log) == log
  {
    SchemaMessages();
    assert log.posts + [] == log.posts;
    if items != [] { NothingWithoutUpdate(c, ev, items[1..], log); }
  }

  // ------------------------------------------------------------------ one item, spelled out

  /** Service, secret and the three names can all be read. */
  predicate Readable(c: Codec, ev: Event, it: Item) {
    && it.calls.serviceFound && it.calls.credentialsFound
    && GetValueFromJson(c, it.spec.json, "segmentsConfig").Some?
    && GetValueFromJson(c, GetValueFromJson(c, it.spec.json, "segmentsConfig").value, "schemaName").Some?
    && GetValueFromJson(c, it.spec.json, "tableName").Some?
    && GetValueFromJson(c, ev.json, "schemaName").Some?
  }

  /** The table names the schema of the event in its segments config. */
  predicate Names(c: Codec, ev: Event, it: Item)
    requires Readable(c, ev, it)
  {
    GetValueFromJson(c, GetValueFromJson(c, it.spec.json, "segmentsConfig").value, "schemaName")
    == GetValueFromJson(c, ev.json, "schemaName")
  }

  lemma ReadableIsPrepared(c: Codec, ev: Event, it: Item)
    ensures Prepared(c, ev, it) <==> Readable(c, ev, it)
    ensures Readable(c, ev, it) ==> (UsesSchema(c, ev, it) <==> Names(c, ev, it))
    ensures Updated(ev) <==> ev.message == "PinotSchemaControllerUpdateSuccess"
  {
    SchemaMessages();
  }

  /** The items on which the scan ends at once: reload is off, or an update happened and a lookup fails. */
  lemma ScanStopsSilently(c: Codec, ev: Event, it: Item, rest: seq<Item>, log: Log)
    requires !it.spec.segmentReload || (ev.message == "PinotSchemaControllerUpdateSuccess" && !Readable(c, ev, it))
    ensures Scan(c, ev, [it] + rest, log) == log
  {
    ReadableIsPrepared(c, ev, it);
    assert log.posts + [] == log.posts;
  }

  /** The items that are passed over: reload is on, but there was no update or it was of another schema. */
  lemma ScanPassesOver(c: Codec, ev: Event, it: Item, rest: seq<Item>, log: Log)
    requires it.spec.segmentReload
    requires ev.message != "PinotSchemaControllerUpdateSuccess" || (Readable(c, ev, it) && !Names(c, ev, it))
    ensures Scan(c, ev, [it] + rest, log) == Scan(c, ev, rest, log)
  {
    ReadableIsPrepared(c, ev, it);
    assert log.posts + [] == log.posts;
    assert ([it] + rest)[1..] == rest;
  }

  /** The items that are reloaded: the request is sent; without an answer, or without a successful patch,
      the scan ends, otherwise the answer's body is noted and the scan goes on. */
  lemma ScanReloads(c: Codec, ev: Event, it: Item, rest: seq<Item>, log: Log)
    requires it.spec.segmentReload && ev.message == "PinotSchemaControllerUpdateSuccess"
    requires Readable(c, ev, it) && Names(c, ev, it) && it.name in log.reloadStatus
    ensures var asked := log.(posts := log.posts + [it.name]);
            Scan(c, ev, [it] + rest, log) ==
              if it.calls.reply.Lost? || !it.calls.patched then asked else
              Scan(c, ev, rest, asked.(reloadStatus := log.reloadStatus[it.name := log.reloadStatus[it.name] + [it.calls.reply.body]]))
  {
    ReadableIsPrepared(c, ev, it);
    assert ([it] + rest)[1..] == rest;
  }
}
