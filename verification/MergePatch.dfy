/** JSON merge patch as section 2 of RFC 7396 defines it, the way a client creates one from two
    versions of a document, and what that means for a status patch with a writer in between. */
module MergePatch {
  import opened Json
  import opened Protocol
  import opened Safety

  function Field(doc: map<string, Json>, n: string): Option<Json> {
    if n in doc then Some(doc[n]) else None
  }

  /** Section 2: members of the patch replace, remove (null) or recursively merge. */
  function Apply(target: Json, patch: Json): Json
    decreases patch
  {
    if !patch.Obj? then patch else
    var t := if target.Obj? then target.fields else map[];
    var p := patch.fields;
    Obj(map n | n in t.Keys + p.Keys && !(n in p && p[n].Null?) ::
          if n in p then Apply(if n in t then t[n] else Null, p[n]) else t[n])
  }

  predicate Differs(from: map<string, Json>, to: map<string, Json>, n: string) {
    Field(from, n) != Field(to, n)
  }

  /** The patch a client sends: changed members only, null for members that went away. */
  function Diff(from: map<string, Json>, to: map<string, Json>): map<string, Json>
    decreases Obj(to)
  {
    map n | n in from.Keys + to.Keys && Differs(from, to, n) ::
      if n !in to then Null
      else if n in from && from[n].Obj? && to[n].Obj? then Obj(Diff(from[n].fields, to[n].fields))
      else to[n]
  }

  /** Null cannot be written by a merge patch. */
  predicate NoNulls(j: Json) {
    match j
    case Null => false
    case Obj(fields) => forall n :: n in fields ==> NoNulls(fields[n])
    case _ => true
  }

  lemma {:induction false} ReplaceIgnoresTarget(target: Json, v: Json)
    requires NoNulls(v) && (target.Obj? ==> target.fields == map[])
    ensures Apply(target, v) == v
    decreases v
  {
    if v.Obj? {
      forall n | n in v.fields
        ensures Apply(Null, v.fields[n]) == v.fields[n]
      {
        ReplaceIgnoresTarget(Null, v.fields[n]);
      }
      assert Apply(target, v).fields == v.fields;
    }
  }

  /** Creating a patch and applying it to the version it was created from gives the new version. */
  lemma {:induction false} PatchRoundTrip(from: map<string, Json>, to: map<string, Json>)
    requires NoNulls(Obj(to))
    ensures Apply(Obj(from), Obj(Diff(from, to))) == Obj(to)
    decreases Obj(to)
  {
    var p := Diff(from, to);
    var r := Apply(Obj(from), Obj(p)).fields;
    forall n
      ensures Field(r, n) == Field(to, n)
    {
      if n in to && Differs(from, to, n) {
        assert n in p;
        if n in from && from[n].Obj? && to[n].Obj? {
          PatchRoundTrip(from[n].fields, to[n].fields);
        } else {
          ReplaceScalar(if n in from then from[n] else Null, to[n]);
        }
      }
    }
    assert r.Keys == to.Keys by {
      forall n
        ensures n in r <==> n in to
      {
        assert Field(r, n) == Field(to, n);
      }
    }
    forall n | n in to
      ensures r[n] == to[n]
    {
      assert Field(r, n) == Field(to, n);
    }
  }

  lemma ReplaceScalar(target: Json, v: Json)
    requires NoNulls(v) && !(target.Obj? && v.Obj?)
    ensures Apply(target, v) == v
  {
    if v.Obj? { ReplaceIgnoresTarget(target, v); }
  }

  /** Documents without nested objects, such as the status of a custom resource. */
  predicate Flat(doc: map<string, Json>) {
    forall n :: n in doc ==> !doc[n].Obj? && !doc[n].Null?
  }

  /** Applied to some other version, the patch decides the changed members and no others. */
  lemma PatchFrame(live: map<string, Json>, from: map<string, Json>, to: map<string, Json>, n: string)
    requires Flat(to)
    ensures Field(Apply(Obj(live), Obj(Diff(from, to))).fields, n)
         == if Differs(from, to, n) then Field(to, n) else Field(live, n)
  {
    var p := Diff(from, to);
    assert n in p <==> Differs(from, to, n);
    if n in p && n in to { assert p[n] == to[n]; }
  }

  // ------------------------------------------------------------------ status documents

  function RecordedKey(k: Kind): string {
    match k
    case Schema => "currentSchemas.json"
    case Table => "currentTable.json"
    case Tenant => "currentTenants.json"
  }

  function Strings(items: seq<string>): Json {
    Arr(seq(|items|, i requires 0 <= i < |items| => Str(items[i])))
  }

  function Unless(absent: bool, v: Json): Option<Json> {
    if absent then None else Some(v)
  }

  /** One member of a status document. Four members are omitted when empty. */
  function StatusField(k: Kind, st: Status, n: string): Option<Json> {
    if n == "type" then Unless(st.conditionType == "", Str(st.conditionType))
    else if n == "status" then Unless(st.condition == "", Str(st.condition))
    else if n == "reason" then Unless(st.reason == "", Str(st.reason))
    else if n == "message" then Unless(st.message == "", Str(st.message))
    else if n == "lastUpdateTime" then Some(Number(st.lastUpdateTime as real))
    else if n == RecordedKey(k) then Some(Str(st.currentJson))
    else if n == "reloadStatus" then
      if !k.Table? || st.reloadStatus.None? then None else Some(Strings(st.reloadStatus.value))
    else None
  }

  function StatusKeys(k: Kind): set<string> {
    {"type", "status", "reason", "message", "lastUpdateTime", RecordedKey(k), "reloadStatus"}
  }

  function StatusDoc(k: Kind, st: Status): map<string, Json> {
    map n | n in StatusKeys(k) && StatusField(k, st, n).Some? :: StatusField(k, st, n).value
  }

  lemma StringsInjective(a: seq<string>, b: seq<string>)
    ensures Strings(a) == Strings(b) <==> a == b
  {
    if Strings(a) == Strings(b) {
      assert |Strings(a).items| == |a| && |Strings(b).items| == |b|;
      forall i | 0 <= i < |a|
        ensures a[i] == b[i]
      {
        assert Strings(a).items[i] == Str(a[i]) && Strings(b).items[i] == Str(b[i]);
      }
    }
  }

  lemma StatusFieldIsField(k: Kind, st: Status, n: string)
    ensures Field(StatusDoc(k, st), n) == StatusField(k, st, n)
  {
  }

  /** The members of a status document under the names of the resource definitions. */
  lemma StatusDocSpelled(k: Kind, st: Status)
    ensures var doc := StatusDoc(k, st);
            && Field(doc, "type") == Unless(st.conditionType == "", Str(st.conditionType))
            && Field(doc, "status") == Unless(st.condition == "", Str(st.condition))
            && Field(doc, "reason") == Unless(st.reason == "", Str(st.reason))
            && Field(doc, "message") == Unless(st.message == "", Str(st.message))
            && Field(doc, match k
                          case Schema => "currentSchemas.json"
                          case Table => "currentTable.json"
                          case Tenant => "currentTenants.json") == Some(Str(st.currentJson))
            && (k.Table? && st.reloadStatus.Some? ==> Field(doc, "reloadStatus") == Some(Strings(st.reloadStatus.value)))
  {
    StatusFieldIsField(k, st, "type");
    StatusFieldIsField(k, st, "status");
    StatusFieldIsField(k, st, "reason");
    StatusFieldIsField(k, st, "message");
    StatusFieldIsField(k, st, RecordedKey(k));
    StatusFieldIsField(k, st, "reloadStatus");
  }

  lemma SameFields(a: map<string, Json>, b: map<string, Json>)
    requires forall n :: Field(a, n) == Field(b, n)
    ensures a == b
  {
    forall n
      ensures n in a <==> n in b
    {
      assert Field(a, n) == Field(b, n);
    }
    forall n | n in a
      ensures a[n] == b[n]
    {
      assert Field(a, n) == Field(b, n);
    }
  }

  /** The status merge of the protocol is a created merge patch applied to whatever is live. */
  lemma MergeStatusIsMergePatch(k: Kind, current: Status, base: Status, target: Status)
    ensures StatusDoc(k, MergeStatus(current, base, target))
         == Apply(Obj(StatusDoc(k, current)), Obj(Diff(StatusDoc(k, base), StatusDoc(k, target)))).fields
  {
    var merged := MergeStatus(current, base, target);
    var applied := Apply(Obj(StatusDoc(k, current)), Obj(Diff(StatusDoc(k, base), StatusDoc(k, target)))).fields;
    forall n
      ensures Field(StatusDoc(k, merged), n) == Field(applied, n)
    {
      MergedField(k, current, base, target, n);
    }
    SameFields(StatusDoc(k, merged), applied);
  }

  lemma MergedField(k: Kind, current: Status, base: Status, target: Status, n: string)
    ensures Field(StatusDoc(k, MergeStatus(current, base, target)), n)
         == Field(Apply(Obj(StatusDoc(k, current)), Obj(Diff(StatusDoc(k, base), StatusDoc(k, target)))).fields, n)
  {
    FlatStatus(k, target);
    PatchFrame(StatusDoc(k, current), StatusDoc(k, base), StatusDoc(k, target), n);
    StatusFieldIsField(k, MergeStatus(current, base, target), n);
    StatusFieldIsField(k, current, n);
    StatusFieldIsField(k, base, n);
    StatusFieldIsField(k, target, n);
    MergedStatusField(k, current, base, target, n);
  }

  lemma FlatStatus(k: Kind, st: Status)
    ensures Flat(StatusDoc(k, st))
  {
  }

  lemma MergedStatusField(k: Kind, current: Status, base: Status, target: Status, n: string)
    ensures StatusField(k, MergeStatus(current, base, target), n)
         == if StatusField(k, base, n) != StatusField(k, target, n) then StatusField(k, target, n)
            else StatusField(k, current, n)
  {
    if base.reloadStatus.Some? && target.reloadStatus.Some? {
      StringsInjective(base.reloadStatus.value, target.reloadStatus.value);
    }
  }

  /** A status patch with any writer between its read and its write: members the transform changed
      relative to the snapshot take its value, all others keep the interleaved writer's; spec,
      finalizers and deletion mark are not touched; the version rises. */
  lemma PatchStatusFrame(e: Env, w: World, snapshot: CR, target: Status, n: string)
    requires WellFormed(w) && PatchSucceeds(e, w)
    ensures var before := Arrive(e, w).live.value;
            var after := PatchObject(e, w, snapshot.status, target).live;
            var from, to := StatusDoc(e.kind, snapshot.status), StatusDoc(e.kind, target);
            && after.Some?
            && Field(StatusDoc(e.kind, after.value.status), n)
                 == (if Differs(from, to, n) then Field(to, n) else Field(StatusDoc(e.kind, before.status), n))
            && after.value == before.(status := after.value.status, version := after.value.version)
            && before.version < after.value.version
  {
    ArriveExtends(e, w);
    var before := Arrive(e, w).live.value;
    MergeStatusIsMergePatch(e.kind, before.status, snapshot.status, target);
    FlatStatus(e.kind, target);
    PatchFrame(StatusDoc(e.kind, before.status), StatusDoc(e.kind, snapshot.status), StatusDoc(e.kind, target), n);
  }
}
