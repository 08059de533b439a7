/** Looking up a member of a member through two calls of `GetValueFromJson`, as the reload scan does
    for the schema name of a table. */
module JsonLookup {
  import opened Json
  import opened JsonText
  import Protocol
  import Reload

  /** The decoder reads the documents of `JsonText`. */
  ghost predicate ReadsText(c: Codec) {
    forall s :: c.members(s) == MembersOf(s)
  }

  // ------------------------------------------------------------------ raw members of a document

  /** The last member with this key. */
  function Last(ms: Members, key: string): Option<Doc> {
    var later := if ms.MoreMembers? then Last(ms.rest, key) else None;
    if later.Some? then later else if ms.key == key then Some(ms.value) else None
  }

  lemma {:induction false} ToMapFirst(m: (string, string), more: seq<(string, string)>)
    ensures ToMap([m] + more) == map[m.0 := m.1] + ToMap(more)
  {
    var all := [m] + more;
    if more == [] {
      assert all[..0] == [];
    } else {
      assert all[..|all| - 1] == [m] + more[..|more| - 1];
      ToMapFirst(m, more[..|more| - 1]);
    }
  }

  lemma {:induction false} ToMapHasLast(ms: Members, key: string)
    ensures var m := ToMap(RawMembers(ms));
            && (key in m <==> Last(ms, key).Some?)
            && (key in m ==> m[key] == TextOf(Last(ms, key).value))
  {
    var head := (ms.key, TextOf(ms.value));
    match ms
    case LastMember(_, _, _, _, _) =>
      ToMapFirst(head, []);
      assert RawMembers(ms) == [head] + [];
    case MoreMembers(_, _, _, _, _, _, rest) =>
      ToMapFirst(head, RawMembers(rest));
      ToMapHasLast(rest, key);
  }

  /** What decoding gives: the members of an object, none for `null`, an error for anything else. */
  function Fields(d: Doc): Option<Option<Members>> {
    match d
    case Object(_, members) => Some(members)
    case Literal(text) => if text == "null" then Some(None) else None
    case _ => None
  }

  function FieldMap(members: Option<Members>): map<string, string> {
    match members case None => map[] case Some(ms) => ToMap(RawMembers(ms))
  }

  lemma MembersOfObject(before: string, open: string, members: Option<Members>, after: string)
    requires ValidDoc(Object(open, members)) && AllWs(before) && AllWs(after)
    ensures MembersOf(before + Write(Object(open, members), after)) == Some(FieldMap(members))
  {
    var s := Write(Object(open, members), after);
    SkipAllWs(before, s);
    assert SkipWs(s) == s;
    var inner := match members case None => ['}'] + after case Some(ms) => WriteMembers(ms, after);
    assert s[1..] == open + inner;
    SkipAllWs(open, inner);
    assert SkipWs(inner) == inner;
    SkipAllWs(after, "");
    assert after + "" == after;
    match members
    case None => assert inner[1..] == after;
    case Some(ms) => ScanWrittenMembers(ms, after);
  }

  lemma MembersOfDocument(before: string, d: Doc, after: string)
    requires ValidDoc(d) && AllWs(before) && AllWs(after)
    ensures MembersOf(before + Write(d, after)) ==
            match Fields(d) case None => None case Some(members) => Some(FieldMap(members))
  {
    if d.Object? {
      MembersOfObject(before, d.open, d.members, after);
    } else {
      var s := Write(d, after);
      SkipAllWs(before, s);
      FirstChar(d, after);
      assert SkipWs(s) == s;
      if after != "" { assert IsWs(after[0]); }
      ScanWritten(d, after);
      WriteIsAppend(d, after);
      assert s[..|s| - |after|] == TextOf(d);
      SkipAllWs(after, "");
      assert after + "" == after;
      if d.Literal? { assert TextOf(d) == d.text; } else { assert TextOf(d)[0] != "null"[0]; }
    }
  }

  /** Anything but white space after an object is an error. */
  lemma TrailingTextIsAnError(before: string, open: string, members: Option<Members>, k: string)
    requires ValidDoc(Object(open, members)) && AllWs(before) && SkipWs(k) != ""
    ensures MembersOf(before + Write(Object(open, members), k)) == None
  {
    var s := Write(Object(open, members), k);
    SkipAllWs(before, s);
    assert SkipWs(s) == s;
    var inner := match members case None => ['}'] + k case Some(ms) => WriteMembers(ms, k);
    assert s[1..] == open + inner;
    SkipAllWs(open, inner);
    assert SkipWs(inner) == inner;
    match members
    case None => assert inner[1..] == k;
    case Some(ms) => ScanWrittenMembers(ms, k);
  }

  // ------------------------------------------------------------------ quotes

  /** A string without its quotes, anything else as it stands. */
  function Unquoted(d: Doc): string {
    match d
    case Text(chars) => chars
    case _ => TextOf(d)
  }

  lemma {:induction false} ItemsEnd(xs: Items)
    ensures var s := WriteItems(xs, ""); s != "" && s[|s| - 1] == ']'
  {
    match xs
    case LastItem(item, after) => WriteIsAppend(item, after + ([']'] + ""));
    case MoreItems(item, after, gap, rest) =>
      ItemsEnd(rest);
      WriteIsAppend(item, after + ([','] + (gap + WriteItems(rest, ""))));
  }

  lemma {:induction false} MembersEnd(ms: Members)
    ensures var s := WriteMembers(ms, ""); s != "" && s[|s| - 1] == '}'
  {
    if ms.MoreMembers? { MembersEnd(ms.rest); }
    var k := AfterValue(ms, "");
    assert k != "" && k[|k| - 1] == '}';
    WriteIsAppend(ms.value, k);
    var v := Write(ms.value, k);
    assert v[|v| - 1] == '}';
  }

  /** Trimming undoes exactly the quotes of a string and leaves every other value alone. */
  lemma TrimWritten(d: Doc)
    requires ValidDoc(d)
    ensures Trimmed(TextOf(d)) == Unquoted(d)
  {
    var s := TextOf(d);
    FirstChar(d, "");
    match d
    case Text(chars) =>
      assert s[1..] == chars + (['"'] + "");
      assert (chars + (['"'] + ""))[..|chars|] == chars;
    case Literal(text) => assert s == text;
    case Array(open, items) =>
      if items.Some? { ItemsEnd(items.value); }
      assert s[|s| - 1] == ']';
    case Object(open, members) =>
      if members.Some? { MembersEnd(members.value); }
      assert s[|s| - 1] == '}';
  }

  // ------------------------------------------------------------------ two lookups in a row

  function Twice(c: Codec, text: string, first: string, second: string): Option<string> {
    match GetValueFromJson(c, text, first)
    case None => None
    case Some(inner) => GetValueFromJson(c, inner, second)
  }

  /** `None`: not decodable into members; `Some(None)`: no such member. */
  function Member(d: Doc, key: string): Option<Option<Doc>> {
    match Fields(d)
    case None => None
    case Some(None) => Some(None)
    case Some(Some(ms)) => Some(Last(ms, key))
  }

  /** The lookup along a path of two keys in the document itself. */
  function AlongPath(d: Doc, first: string, second: string): Option<string> {
    match Member(d, first)
    case None => None
    case Some(None) => None
    case Some(Some(inner)) =>
      match Member(inner, second)
      case None => None
      case Some(None) => Some("")
      case Some(Some(leaf)) => Some(Unquoted(leaf))
  }

  lemma {:induction false} LastIsValid(ms: Members, key: string)
    requires ValidMembers(ms)
    ensures Last(ms, key).Some? ==> ValidDoc(Last(ms, key).value)
  {
    if ms.MoreMembers? { LastIsValid(ms.rest, key); }
  }

  /** One lookup in a written document. */
  lemma LookupWritten(c: Codec, before: string, d: Doc, after: string, key: string)
    requires ReadsText(c) && ValidDoc(d) && AllWs(before) && AllWs(after)
    ensures Member(d, key).Some? && Member(d, key).value.Some? ==> ValidDoc(Member(d, key).value.value)
    ensures GetValueFromJson(c, before + Write(d, after), key) ==
            match Member(d, key)
            case None => None
            case Some(None) => Some("")
            case Some(Some(leaf)) => Some(Unquoted(leaf))
  {
    MembersOfDocument(before, d, after);
    assert c.members(before + Write(d, after)) == MembersOf(before + Write(d, after));
    assert Trimmed("") == "";
    match Fields(d)
    case Some(Some(ms)) =>
      ToMapHasLast(ms, key);
      LastIsValid(ms, key);
      if Last(ms, key).Some? { TrimWritten(Last(ms, key).value); }
    case _ =>
  }

  /** The first lookup ends at a string that is itself a document with members. */
  predicate StringDecodes(d: Doc, first: string) {
    var v := Member(d, first);
    v.Some? && v.value.Some? && v.value.value.Text? && MembersOf(v.value.value.chars).Some?
  }

  lemma {:induction false} SkipKeepsPlain(s: string)
    requires AllNoQuote(s)
    ensures AllNoQuote(SkipWs(s))
  {
    if s != "" && IsWs(s[0]) { SkipKeepsPlain(s[1..]); }
  }

  predicate AllNoQuote(s: string) { forall i :: 0 <= i < |s| ==> s[i] != '"' }

  /** Only an empty object or `null` can hide in a string without escapes. */
  lemma StringDecodesToNothing(chars: string)
    requires AllPlain(chars) && MembersOf(chars).Some?
    ensures MembersOf(chars).value == map[]
  {
    SkipKeepsPlain(chars);
    var s := SkipWs(chars);
    if StartsWith(s, '{') { SkipKeepsPlain(s[1..]); }
  }

  /** Two lookups give the value along the path, for every document without escapes and any white
      space, except exactly when the first value is a string that itself reads as `null` or as an
      empty object: then the second lookup finds nothing where the path has an error. */
  lemma TwoLookupsFollowThePath(c: Codec, before: string, d: Doc, after: string, first: string, second: string)
    requires ReadsText(c) && ValidDoc(d) && AllWs(before) && AllWs(after)
    ensures Twice(c, before + Write(d, after), first, second) == AlongPath(d, first, second) <==> !StringDecodes(d, first)
    ensures StringDecodes(d, first) ==> Twice(c, before + Write(d, after), first, second) == Some("")
  {
    LookupWritten(c, before, d, after, first);
    var v := Member(d, first);
    assert c.members("") == MembersOf("");
    assert MembersOf("") == None;
    if v.Some? && v.value.Some? {
      var inner := v.value.value;
      if inner.Text? {
        assert c.members(inner.chars) == MembersOf(inner.chars);
        if MembersOf(inner.chars).Some? { StringDecodesToNothing(inner.chars); }
        assert Trimmed("") == "";
      } else {
        LookupWritten(c, "", inner, "", second);
        assert "" + Write(inner, "") == TextOf(inner);
      }
    }
  }

  /** An input on which the two differ: a string where the table's configuration object belongs. */
  lemma HiddenObjectIsMistaken(c: Codec)
    requires ReadsText(c)
    ensures var d := Object("", Some(LastMember("segmentsConfig", "", "", Text("{}"), "")));
            && ValidDoc(d)
            && Twice(c, TextOf(d), "segmentsConfig", "schemaName") == Some("")
            && AlongPath(d, "segmentsConfig", "schemaName") == None
  {
    var d := Object("", Some(LastMember("segmentsConfig", "", "", Text("{}"), "")));
    assert SkipWs("{}") == "{}" && SkipWs("}") == "}" && SkipWs("") == "";
    assert "{}"[1..] == "}" && "}"[1..] == "";
    assert MembersOf("{}") == Some(map[]);
    TwoLookupsFollowThePath(c, "", d, "", "segmentsConfig", "schemaName");
    assert "" + Write(d, "") == TextOf(d);
  }

  /** The schema name the reload scan compares. */
  lemma ScanReadsSchemaOfTable(c: Codec, spec: Protocol.Spec, before: string, d: Doc, after: string)
    requires ReadsText(c) && ValidDoc(d) && AllWs(before) && AllWs(after)
    requires spec.json == before + Write(d, after) && !StringDecodes(d, "segmentsConfig")
    ensures Reload.TableSchema(c, spec) == AlongPath(d, "segmentsConfig", "schemaName")
  {
    TwoLookupsFollowThePath(c, before, d, after, "segmentsConfig", "schemaName");
  }
}
