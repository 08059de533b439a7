/** JSON as the controllers use it: an opaque decoder, and the two helpers built on it. */
module Json {

  datatype Option<+T> = None | Some(value: T)

  /** A decoded document. */
  datatype Json =
    | Null
    | Bool(b: bool)
    | Number(value: real)
    | Str(text: string)
    | Arr(items: seq<Json>)
    | Obj(fields: map<string, Json>)

  /** What `encoding/json` offers: decoding into a tree, and decoding one object level
      into raw members. Both are partial. */
  datatype Codec = Codec(
    decode: string -> Option<Json>,
    members: string -> Option<map<string, string>>)

  /** The only facts about the decoder that the protocol relies on. */
  ghost predicate Lawful(c: Codec) {
    && c.decode("").None?
    && (forall s :: c.members(s).Some? ==> c.decode(s).Some?)
  }

  /** `None` is the error return. */
  function IsEqualJson(c: Codec, s1: string, s2: string): Option<bool> {
    match (c.decode(s1), c.decode(s2))
    case (Some(o1), Some(o2)) => Some(o1 == o2)
    case _ => None
  }

  predicate SameJson(c: Codec, s1: string, s2: string) {
    IsEqualJson(c, s1, s2) == Some(true)
  }

  const QUOTE: char := '"'

  /** Drops one leading and then one trailing quote. */
  function Trimmed(s: string): string {
    var t := if |s| > 0 && s[0] == QUOTE then s[1..] else s;
    if |t| > 0 && t[|t| - 1] == QUOTE then t[..|t| - 1] else t
  }

  /** One layer of quotes is cancelled, whatever it encloses, and only a text without a quote at either
      end stays as it is. */
  lemma TrimCancelsQuotes(s: string)
    ensures Trimmed([QUOTE] + s + [QUOTE]) == s
    ensures Trimmed(s) == s <==> s == "" || (s[0] != QUOTE && s[|s| - 1] != QUOTE)
  {
    var quoted := [QUOTE] + s + [QUOTE];
    assert quoted[1..] == s + [QUOTE] && (s + [QUOTE])[..|s|] == s;
  }

  method TrimQuote(text: string) returns (s: string)
    ensures s == Trimmed(text)
  {
    s := text;
    if |s| > 0 && s[0] == QUOTE { s := s[1..]; }
    if |s| > 0 && s[|s| - 1] == QUOTE { s := s[..|s| - 1]; }
  }

  /** A missing key reads as the empty raw message. */
  function GetValueFromJson(c: Codec, document: string, key: string): Option<string> {
    match c.members(document)
    case None => None
    case Some(m) => Some(Trimmed(if key in m then m[key] else ""))
  }

  /** The lookup as the callers make it. */
  method LookUp(c: Codec, document: string, key: string) returns (value: Option<string>)
    ensures value == GetValueFromJson(c, document, key)
  {
    var members := c.members(document);
    if members.None? { return None; }
    var raw := if key in members.value then members.value[key] else "";
    var text := TrimQuote(raw);
    return Some(text);
  }
}
