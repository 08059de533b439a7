/** JSON text without escapes, as far as looking up raw members goes: a scanner over the text, the
    documents it is meant to recognise, and what two lookups in a row amount to. */
module JsonText {
  import opened Json

  // ------------------------------------------------------------------ characters

  predicate IsWs(c: char) { c == ' ' || c == '\t' || c == '\n' || c == '\r' }

  predicate IsDelimiter(c: char) {
    IsWs(c) || c == '"' || c == ',' || c == ':' || c == '[' || c == ']' || c == '{' || c == '}'
  }

  /** A character a string may contain as itself. */
  predicate IsPlain(c: char) { c != '"' && c != '\\' && c >= ' ' }

  predicate IsDigit(c: char) { '0' <= c <= '9' }

  function DigitSpan(s: string): (n: nat)
    ensures n <= |s|
  {
    if s == "" || !IsDigit(s[0]) then 0 else 1 + DigitSpan(s[1..])
  }

  predicate IsExponent(s: string) {
    s == "" ||
    ((s[0] == 'e' || s[0] == 'E') &&
     var t := if |s| > 1 && (s[1] == '+' || s[1] == '-') then s[2..] else s[1..];
     |t| > 0 && DigitSpan(t) == |t|)
  }

  predicate IsFraction(s: string) {
    if s != "" && s[0] == '.' then var n := DigitSpan(s[1..]); n > 0 && IsExponent(s[1 + n..]) else IsExponent(s)
  }

  predicate IsNumber(s: string) {
    var t := if s != "" && s[0] == '-' then s[1..] else s;
    var n := DigitSpan(t);
    n > 0 && (t[0] == '0' ==> n == 1) && IsFraction(t[n..])
  }

  predicate IsLiteral(s: string) { s == "true" || s == "false" || s == "null" || IsNumber(s) }

  // ------------------------------------------------------------------ the scanner

  function SkipWs(s: string): (r: string)
    ensures |r| <= |s|
  {
    if s != "" && IsWs(s[0]) then SkipWs(s[1..]) else s
  }

  function LiteralSpan(s: string): (n: nat)
    ensures n <= |s|
  {
    if s == "" || IsDelimiter(s[0]) then 0 else 1 + LiteralSpan(s[1..])
  }

  function PlainSpan(s: string): (n: nat)
    ensures n <= |s|
  {
    if s == "" || !IsPlain(s[0]) then 0 else 1 + PlainSpan(s[1..])
  }

  predicate StartsWith(s: string, c: char) { s != "" && s[0] == c }

  /** The characters of a string token and what follows it. */
  function ScanString(s: string): (r: Option<(string, string)>)
    ensures r.Some? ==> |r.value.1| < |s|
  {
    if !StartsWith(s, '"') then None else
    var n := PlainSpan(s[1..]);
    if StartsWith(s[1 + n..], '"') then Some((s[1..1 + n], s[n + 2..])) else None
  }

  /** What follows one value. */
  function ScanValue(s: string): (r: Option<string>)
    ensures r.Some? ==> |r.value| < |s|
    decreases |s|, 0
  {
    if s == "" then None
    else if s[0] == '"' then
      match ScanString(s) case None => None case Some((_, rest)) => Some(rest)
    else if s[0] == '{' then
      var t := SkipWs(s[1..]);
      if StartsWith(t, '}') then Some(t[1..]) else
      match ScanMembers(t) case None => None case Some((_, rest)) => Some(rest)
    else if s[0] == '[' then
      var t := SkipWs(s[1..]);
      if StartsWith(t, ']') then Some(t[1..]) else ScanItems(t)
    else
      var n := LiteralSpan(s);
      if n > 0 && IsLiteral(s[..n]) then Some(s[n..]) else None
  }

  /** The items of an array up to and including its bracket. */
  function ScanItems(s: string): (r: Option<string>)
    ensures r.Some? ==> |r.value| < |s|
    decreases |s|, 1
  {
    match ScanValue(s)
    case None => None
    case Some(after) =>
      var t := SkipWs(after);
      if StartsWith(t, ']') then Some(t[1..])
      else if StartsWith(t, ',') then ScanItems(SkipWs(t[1..]))
      else None
  }

  /** Keys with raw values, up to and including the closing brace. */
  function ScanMembers(s: string): (r: Option<(seq<(string, string)>, string)>)
    ensures r.Some? ==> |r.value.1| < |s|
    decreases |s|, 1
  {
    match ScanString(s)
    case None => None
    case Some((key, afterKey)) =>
      var colon := SkipWs(afterKey);
      if !StartsWith(colon, ':') then None else
      var v := SkipWs(colon[1..]);
      match ScanValue(v)
      case None => None
      case Some(after) => ScanAfterMember((key, v[..|v| - |after|]), after)
  }

  function ScanAfterMember(member: (string, string), s: string): (r: Option<(seq<(string, string)>, string)>)
    ensures r.Some? ==> |r.value.1| < |s|
    decreases |s|, 2
  {
    var t := SkipWs(s);
    if StartsWith(t, '}') then Some(([member], t[1..]))
    else if StartsWith(t, ',') then
      match ScanMembers(SkipWs(t[1..]))
      case None => None
      case Some((more, rest)) => Some(([member] + more, rest))
    else None
  }

  /** A later member with the same key wins. */
  function ToMap(members: seq<(string, string)>): map<string, string> {
    if members == [] then map[] else
    var last := members[|members| - 1];
    ToMap(members[..|members| - 1])[last.0 := last.1]
  }

  /** Decoding a document into raw members; `null` decodes into no members at all. */
  function MembersOf(text: string): Option<map<string, string>> {
    var s := SkipWs(text);
    if StartsWith(s, '{') then
      var t := SkipWs(s[1..]);
      if StartsWith(t, '}') then (if SkipWs(t[1..]) == "" then Some(map[]) else None) else
      match ScanMembers(t)
      case None => None
      case Some((members, rest)) => if SkipWs(rest) == "" then Some(ToMap(members)) else None
    else
      match ScanValue(s)
      case None => None
      case Some(rest) => if s[..|s| - |rest|] == "null" && SkipWs(rest) == "" then Some(map[]) else None
  }

  // ------------------------------------------------------------------ documents

  /** Documents with all their white space. */
  datatype Doc =
    | Literal(text: string)
    | Text(chars: string)
    | Array(open: string, items: Option<Items>)
    | Object(open: string, members: Option<Members>)

  datatype Items =
    | LastItem(item: Doc, after: string)
    | MoreItems(item: Doc, after: string, gap: string, rest: Items)

  datatype Members =
    | LastMember(key: string, beforeColon: string, afterColon: string, value: Doc, after: string)
    | MoreMembers(key: string, beforeColon: string, afterColon: string, value: Doc, after: string, gap: string, rest: Members)

  predicate AllWs(s: string) { forall i :: 0 <= i < |s| ==> IsWs(s[i]) }

  predicate AllPlain(s: string) { forall i :: 0 <= i < |s| ==> IsPlain(s[i]) }

  predicate NoDelimiter(s: string) { forall i :: 0 <= i < |s| ==> !IsDelimiter(s[i]) }

  predicate ValidDoc(d: Doc) {
    match d
    case Literal(text) => IsLiteral(text) && NoDelimiter(text) && text != ""
    case Text(chars) => AllPlain(chars)
    case Array(open, items) => AllWs(open) && (items.Some? ==> ValidItems(items.value))
    case Object(open, members) => AllWs(open) && (members.Some? ==> ValidMembers(members.value))
  }

  predicate ValidItems(xs: Items) {
    && ValidDoc(xs.item) && AllWs(xs.after)
    && (xs.MoreItems? ==> AllWs(xs.gap) && ValidItems(xs.rest))
  }

  predicate ValidMembers(ms: Members) {
    && AllPlain(ms.key) && AllWs(ms.beforeColon) && AllWs(ms.afterColon) && ValidDoc(ms.value) && AllWs(ms.after)
    && (ms.MoreMembers? ==> AllWs(ms.gap) && ValidMembers(ms.rest))
  }

  /** The text of a document, followed by `k`. */
  function Write(d: Doc, k: string): string
    decreases d
  {
    match d
    case Literal(text) => text + k
    case Text(chars) => ['"'] + (chars + (['"'] + k))
    case Array(open, items) =>
      ['['] + (open + match items case None => [']'] + k case Some(xs) => WriteItems(xs, k))
    case Object(open, members) =>
      ['{'] + (open + match members case None => ['}'] + k case Some(ms) => WriteMembers(ms, k))
  }

  function WriteItems(xs: Items, k: string): string
    decreases xs
  {
    match xs
    case LastItem(item, after) => Write(item, after + ([']'] + k))
    case MoreItems(item, after, gap, rest) => Write(item, after + ([','] + (gap + WriteItems(rest, k))))
  }

  function AfterValue(ms: Members, k: string): string
    decreases ms, 0
  {
    match ms
    case LastMember(_, _, _, _, after) => after + (['}'] + k)
    case MoreMembers(_, _, _, _, after, gap, rest) => after + ([','] + (gap + WriteMembers(rest, k)))
  }

  function WriteMembers(ms: Members, k: string): string
    decreases ms, 1
  {
    ['"'] + (ms.key + (['"'] + (ms.beforeColon + ([':'] + (ms.afterColon + Write(ms.value, AfterValue(ms, k)))))))
  }

  function TextOf(d: Doc): string { Write(d, "") }

  /** Keys with the raw text of their values. */
  function RawMembers(ms: Members): seq<(string, string)> {
    [(ms.key, TextOf(ms.value))] + if ms.MoreMembers? then RawMembers(ms.rest) else []
  }

  // ------------------------------------------------------------------ scanning what was written

  lemma {:induction false} SkipAllWs(ws: string, k: string)
    requires AllWs(ws)
    ensures SkipWs(ws + k) == SkipWs(k)
  {
    if ws != "" {
      assert (ws + k)[1..] == ws[1..] + k;
      SkipAllWs(ws[1..], k);
    } else {
      assert ws + k == k;
    }
  }

  lemma {:induction false} SpanPlain(chars: string, k: string)
    requires AllPlain(chars) && StartsWith(k, '"')
    ensures PlainSpan(chars + k) == |chars|
  {
    if chars != "" {
      assert (chars + k)[1..] == chars[1..] + k;
      SpanPlain(chars[1..], k);
    } else {
      assert chars + k == k;
    }
  }

  /** What may follow a literal: nothing, or a delimiter. */
  predicate Closed(k: string) { k == "" || IsDelimiter(k[0]) }

  lemma {:induction false} SpanLiteral(text: string, k: string)
    requires NoDelimiter(text) && Closed(k)
    ensures LiteralSpan(text + k) == |text|
  {
    if text != "" {
      assert (text + k)[1..] == text[1..] + k;
      SpanLiteral(text[1..], k);
    } else {
      assert text + k == k;
    }
  }

  lemma ScanWrittenString(chars: string, k: string)
    requires AllPlain(chars)
    ensures ScanString(['"'] + (chars + (['"'] + k))) == Some((chars, k))
  {
    var s := ['"'] + (chars + (['"'] + k));
    assert s[1..] == chars + (['"'] + k);
    SpanPlain(chars, ['"'] + k);
    assert s[1 + |chars|..] == ['"'] + k;
    assert s[1..1 + |chars|] == chars;
    assert s[|chars| + 2..] == k;
  }

  lemma Regroup(a: string, b: string, c: string, k: string)
    ensures a + (b + (c + k)) == (a + (b + c)) + k
  {
    assert a + (b + (c + k)) == a + b + c + k;
    assert (a + (b + c)) + k == a + b + c + k;
  }

  lemma {:induction false} WriteIsAppend(d: Doc, k: string)
    ensures Write(d, k) == TextOf(d) + k
    decreases d
  {
    match d
    case Literal(text) => assert text + "" == text;
    case Text(chars) =>
      assert ['"'] + "" == ['"'];
      Regroup(['"'], chars, ['"'], k);
    case Array(open, items) =>
      assert [']'] + "" == [']'];
      if items.Some? { WriteItemsIsAppend(items.value, k); }
      Regroup(['['], open, if items.None? then [']'] else WriteItems(items.value, ""), k);
    case Object(open, members) =>
      assert ['}'] + "" == ['}'];
      if members.Some? { WriteMembersIsAppend(members.value, k); }
      Regroup(['{'], open, if members.None? then ['}'] else WriteMembers(members.value, ""), k);
  }

  lemma {:induction false} WriteItemsIsAppend(xs: Items, k: string)
    ensures WriteItems(xs, k) == WriteItems(xs, "") + k
    decreases xs
  {
    match xs
    case LastItem(item, after) =>
      WriteIsAppend(item, after + ([']'] + k));
      WriteIsAppend(item, after + ([']'] + ""));
      assert TextOf(item) + (after + ([']'] + k)) == TextOf(item) + (after + ([']'] + "")) + k;
    case MoreItems(item, after, gap, rest) =>
      WriteItemsIsAppend(rest, k);
      WriteIsAppend(item, after + ([','] + (gap + WriteItems(rest, k))));
      WriteIsAppend(item, after + ([','] + (gap + WriteItems(rest, ""))));
      assert TextOf(item) + (after + ([','] + (gap + WriteItems(rest, k))))
          == TextOf(item) + (after + ([','] + (gap + WriteItems(rest, "")))) + k;
  }

  lemma {:induction false} WriteMembersIsAppend(ms: Members, k: string)
    ensures WriteMembers(ms, k) == WriteMembers(ms, "") + k
    decreases ms
  {
    if ms.MoreMembers? { WriteMembersIsAppend(ms.rest, k); }
    assert AfterValue(ms, k) == AfterValue(ms, "") + k;
    WriteIsAppend(ms.value, AfterValue(ms, k));
    WriteIsAppend(ms.value, AfterValue(ms, ""));
    var v := TextOf(ms.value);
    assert v + AfterValue(ms, k) == v + AfterValue(ms, "") + k;
    assert ms.afterColon + (v + AfterValue(ms, k)) == ms.afterColon + (v + AfterValue(ms, "")) + k;
  }

  /** A written document starts with a character that is neither white space nor a closing bracket. */
  lemma FirstChar(d: Doc, k: string)
    requires ValidDoc(d)
    ensures Write(d, k) != "" && !IsWs(Write(d, k)[0]) && Write(d, k)[0] != ']' && Write(d, k)[0] != '}'
    ensures d.Literal? ==> Write(d, k)[0] != '"' && Write(d, k)[0] != '{' && Write(d, k)[0] != '['
  {
  }

  lemma FirstOfItems(xs: Items, k: string)
    requires ValidItems(xs)
    ensures var s := WriteItems(xs, k); s != "" && SkipWs(s) == s && s[0] != ']'
  {
    match xs
    case LastItem(item, after) => FirstChar(item, after + ([']'] + k));
    case MoreItems(item, after, gap, rest) => FirstChar(item, after + ([','] + (gap + WriteItems(rest, k))));
  }

  /** Scanning a written value consumes exactly that value. */
  lemma {:induction false} ScanWritten(d: Doc, k: string)
    requires ValidDoc(d) && (d.Literal? ==> Closed(k))
    ensures ScanValue(Write(d, k)) == Some(k)
    decreases d
  {
    var s := Write(d, k);
    FirstChar(d, k);
    match d
    case Literal(text) =>
      SpanLiteral(text, k);
      assert s[..|text|] == text && s[|text|..] == k;
    case Text(chars) => ScanWrittenString(chars, k);
    case Array(open, items) =>
      var inner := match items case None => [']'] + k case Some(xs) => WriteItems(xs, k);
      assert s[1..] == open + inner;
      SkipAllWs(open, inner);
      match items {
        case None => assert SkipWs(inner) == inner && inner[1..] == k;
        case Some(xs) => FirstOfItems(xs, k); ScanWrittenItems(xs, k);
      }
    case Object(open, members) =>
      var inner := match members case None => ['}'] + k case Some(ms) => WriteMembers(ms, k);
      assert s[1..] == open + inner;
      SkipAllWs(open, inner);
      match members {
        case None => assert SkipWs(inner) == inner && inner[1..] == k;
        case Some(ms) => assert SkipWs(inner) == inner; ScanWrittenMembers(ms, k);
      }
  }

  lemma {:induction false} ScanWrittenItems(xs: Items, k: string)
    requires ValidItems(xs)
    ensures ScanItems(WriteItems(xs, k)) == Some(k)
    decreases xs
  {
    match xs
    case LastItem(item, after) =>
      var t := after + ([']'] + k);
      CloseAfter(after, [']'] + k);
      ScanWritten(item, t);
      SkipAllWs(after, [']'] + k);
      assert ([']'] + k)[1..] == k;
    case MoreItems(item, after, gap, rest) =>
      var next := gap + WriteItems(rest, k);
      CloseAfter(after, [','] + next);
      ScanWritten(item, after + ([','] + next));
      SkipAllWs(after, [','] + next);
      assert ([','] + next)[1..] == next;
      SkipAllWs(gap, WriteItems(rest, k));
      FirstOfItems(rest, k);
      ScanWrittenItems(rest, k);
  }

  lemma CloseAfter(after: string, k: string)
    requires AllWs(after) && k != "" && IsDelimiter(k[0])
    ensures Closed(after + k)
  {
    if after != "" { assert (after + k)[0] == after[0]; }
  }

  lemma ScanWrittenMember(ms: Members, k: string)
    requires ValidMembers(ms) && ScanValue(Write(ms.value, AfterValue(ms, k))) == Some(AfterValue(ms, k))
    ensures ScanMembers(WriteMembers(ms, k)) == ScanAfterMember((ms.key, TextOf(ms.value)), AfterValue(ms, k))
  {
    var after := AfterValue(ms, k);
    var v := Write(ms.value, after);
    var colon := [':'] + (ms.afterColon + v);
    ScanWrittenString(ms.key, ms.beforeColon + colon);
    SkipAllWs(ms.beforeColon, colon);
    assert SkipWs(colon) == colon && colon[1..] == ms.afterColon + v;
    SkipAllWs(ms.afterColon, v);
    FirstChar(ms.value, after);
    assert SkipWs(v) == v;
    WriteIsAppend(ms.value, after);
    assert v[..|v| - |after|] == TextOf(ms.value);
  }

  lemma ScanAfterLast(member: (string, string), ws: string, k: string)
    requires AllWs(ws)
    ensures ScanAfterMember(member, ws + (['}'] + k)) == Some(([member], k))
  {
    SkipAllWs(ws, ['}'] + k);
    assert (['}'] + k)[1..] == k;
  }

  lemma ScanAfterMore(member: (string, string), ws: string, gap: string, ms: Members, k: string)
    requires AllWs(ws) && AllWs(gap)
    ensures ScanAfterMember(member, ws + ([','] + (gap + WriteMembers(ms, k))))
         == match ScanMembers(WriteMembers(ms, k))
            case None => None
            case Some((more, rest)) => Some(([member] + more, rest))
  {
    var next := gap + WriteMembers(ms, k);
    SkipAllWs(ws, [','] + next);
    assert ([','] + next)[1..] == next;
    SkipAllWs(gap, WriteMembers(ms, k));
    assert SkipWs(WriteMembers(ms, k)) == WriteMembers(ms, k);
  }

  lemma {:induction false} ScanWrittenMembers(ms: Members, k: string)
    requires ValidMembers(ms)
    ensures ScanMembers(WriteMembers(ms, k)) == Some((RawMembers(ms), k))
    decreases ms
  {
    ClosedAfterValue(ms, k);
    ScanWritten(ms.value, AfterValue(ms, k));
    ScanWrittenMember(ms, k);
    var member := (ms.key, TextOf(ms.value));
    match ms
    case LastMember(_, _, _, _, ws) =>
      ScanAfterLast(member, ws, k);
      assert RawMembers(ms) == [member];
    case MoreMembers(_, _, _, _, ws, gap, rest) =>
      ScanAfterMore(member, ws, gap, rest, k);
      ScanWrittenMembers(rest, k);
  }

  lemma ClosedAfterValue(ms: Members, k: string)
    requires ValidMembers(ms)
    ensures Closed(AfterValue(ms, k))
  {
    match ms
    case LastMember(_, _, _, _, ws) => CloseAfter(ws, ['}'] + k);
    case MoreMembers(_, _, _, _, ws, gap, rest) => CloseAfter(ws, [','] + (gap + WriteMembers(rest, k)));
  }
}
