/**
 * JSON values and a text codec standing for `JSON.stringify` / `JSON.parse`.
 * The text format is a self-delimiting one of this model's own (type tag,
 * length prefixes); what the application relies on is only that parsing the
 * printed text gives the value back and that other text may fail to parse.
 */
module Json {
  import opened Wrappers
  import opened Decimal

  datatype Json =
    | JNull
    | JBool(b: bool)
    | JNum(n: int)
    | JStr(s: string)
    | JArr(items: seq<Json>)
    | JObj(members: seq<Member>)

  datatype Member = Member(key: string, value: Json)

  /** JavaScript truthiness of a parsed value. */
  predicate Truthy(j: Json)
  {
    match j
    case JNull => false
    case JBool(b) => b
    case JNum(n) => n != 0
    case JStr(s) => s != ""
    case _ => true
  }

  // ---------------------------------------------------------------- printing

  function Chunk(s: string): string
  {
    NatToString(|s|) + ":" + s
  }

  function Encode(j: Json): string
    decreases j
  {
    match j
    case JNull => "n"
    case JBool(b) => if b then "t" else "f"
    case JNum(n) => "i" + IntToString(n) + ";"
    case JStr(s) => "s" + Chunk(s)
    case JArr(xs) => "a" + NatToString(|xs|) + ":" + EncodeItems(xs)
    case JObj(ms) => "o" + NatToString(|ms|) + ":" + EncodeMembers(ms)
  }

  function EncodeItems(xs: seq<Json>): string
    decreases xs
  {
    if xs == [] then "" else Encode(xs[0]) + EncodeItems(xs[1..])
  }

  function EncodeMembers(ms: seq<Member>): string
    decreases ms
  {
    if ms == [] then "" else Chunk(ms[0].key) + Encode(ms[0].value) + EncodeMembers(ms[1..])
  }

  // ----------------------------------------------------------------- parsing

  /** The number of decimal digits at the front of s. */
  function LeadingDigits(s: string): (k: nat)
    ensures k <= |s| && AllDigits(s[..k])
    ensures k < |s| ==> !IsDigit(s[k])
  {
    if s == [] || !IsDigit(s[0]) then 0 else 1 + LeadingDigits(s[1..])
  }

  function ParseNatPrefix(s: string): (r: Option<(nat, string)>)
    ensures r.Some? ==> |r.value.1| < |s|
  {
    var k := LeadingDigits(s);
    if k == 0 then None else Some((DigitsValue(s[..k]), s[k..]))
  }

  /** A count followed by a colon. */
  function ParseCount(s: string): (r: Option<(nat, string)>)
    ensures r.Some? ==> |r.value.1| < |s|
  {
    match ParseNatPrefix(s)
    case Some((n, rest)) => if rest != [] && rest[0] == ':' then Some((n, rest[1..])) else None
    case None => None
  }

  function ParseChunk(s: string): (r: Option<(string, string)>)
    ensures r.Some? ==> |r.value.1| < |s|
  {
    match ParseCount(s)
    case Some((n, rest)) => if n <= |rest| then Some((rest[..n], rest[n..])) else None
    case None => None
  }

  function ParseIntPrefix(s: string): (r: Option<(int, string)>)
    ensures r.Some? ==> |r.value.1| < |s|
  {
    if s != [] && s[0] == '-' then
      match ParseNatPrefix(s[1..])
      case Some((n, rest)) => Some((0 - n as int, rest))
      case None => None
    else
      match ParseNatPrefix(s)
      case Some((n, rest)) => Some((n as int, rest))
      case None => None
  }

  /** Parses one value at the front of s and returns it with the unread rest. */
  function Parse(s: string): (r: Option<(Json, string)>)
    ensures r.Some? ==> |r.value.1| < |s|
    decreases |s|, 0
  {
    if s == [] then None
    else if s[0] == 'n' then Some((JNull, s[1..]))
    else if s[0] == 't' then Some((JBool(true), s[1..]))
    else if s[0] == 'f' then Some((JBool(false), s[1..]))
    else if s[0] == 'i' then
      match ParseIntPrefix(s[1..])
      case Some((n, rest)) => if rest != [] && rest[0] == ';' then Some((JNum(n), rest[1..])) else None
      case None => None
    else if s[0] == 's' then
      match ParseChunk(s[1..])
      case Some((t, rest)) => Some((JStr(t), rest))
      case None => None
    else if s[0] == 'a' then
      match ParseCount(s[1..])
      case Some((n, rest)) =>
        (match ParseItems(n, rest)
         case Some((xs, rest')) => Some((JArr(xs), rest'))
         case None => None)
      case None => None
    else if s[0] == 'o' then
      match ParseCount(s[1..])
      case Some((n, rest)) =>
        (match ParseMembers(n, rest)
         case Some((ms, rest')) => Some((JObj(ms), rest'))
         case None => None)
      case None => None
    else None
  }

  function ParseItems(n: nat, s: string): (r: Option<(seq<Json>, string)>)
    ensures r.Some? ==> |r.value.1| <= |s| && |r.value.0| == n
    decreases |s|, 1, n
  {
    if n == 0 then Some(([], s))
    else
      match Parse(s)
      case Some((x, rest)) =>
        (match ParseItems(n - 1, rest)
         case Some((xs, rest')) => Some(([x] + xs, rest'))
         case None => None)
      case None => None
  }

  function ParseMembers(n: nat, s: string): (r: Option<(seq<Member>, string)>)
    ensures r.Some? ==> |r.value.1| <= |s| && |r.value.0| == n
    decreases |s|, 1, n
  {
    if n == 0 then Some(([], s))
    else
      match ParseChunk(s)
      case Some((k, rest)) =>
        (match Parse(rest)
         case Some((v, rest')) =>
           (match ParseMembers(n - 1, rest')
            case Some((ms, rest'')) => Some(([Member(k, v)] + ms, rest''))
            case None => None)
         case None => None)
      case None => None
  }

  /** `JSON.stringify`. */
  function Serialize(j: Json): string
  {
    Encode(j)
  }

  /** `JSON.parse`: None stands for the exception thrown on malformed text. */
  function Deserialize(s: string): (r: Option<Json>)
  {
    match Parse(s)
    case Some((j, rest)) => if rest == [] then Some(j) else None
    case None => None
  }

  // ------------------------------------------------------------- round trip

  lemma {:induction false} LeadingDigitsOf(p: string, rest: string)
    requires AllDigits(p)
    requires rest == [] || !IsDigit(rest[0])
    ensures LeadingDigits(p + rest) == |p|
    decreases |p|
  {
    if p != [] {
      assert (p + rest)[1..] == p[1..] + rest;
      LeadingDigitsOf(p[1..], rest);
    }
  }

  lemma NatPrefixOf(n: nat, rest: string)
    requires rest == [] || !IsDigit(rest[0])
    ensures ParseNatPrefix(NatToString(n) + rest) == Some((n, rest))
  {
    var p := NatToString(n);
    NatToStringShape(n);
    NatToStringRoundTrip(n);
    LeadingDigitsOf(p, rest);
    assert (p + rest)[..|p|] == p;
    assert (p + rest)[|p|..] == rest;
  }

  lemma CountOf(n: nat, rest: string)
    ensures ParseCount(NatToString(n) + ":" + rest) == Some((n, rest))
  {
    assert NatToString(n) + ":" + rest == NatToString(n) + (":" + rest);
    NatPrefixOf(n, ":" + rest);
  }

  lemma ChunkOf(t: string, rest: string)
    ensures ParseChunk(Chunk(t) + rest) == Some((t, rest))
  {
    assert Chunk(t) + rest == NatToString(|t|) + ":" + (t + rest);
    CountOf(|t|, t + rest);
    assert (t + rest)[..|t|] == t;
    assert (t + rest)[|t|..] == rest;
  }

  lemma IntPrefixOf(i: int, rest: string)
    requires rest == [] || !IsDigit(rest[0])
    ensures ParseIntPrefix(IntToString(i) + rest) == Some((i, rest))
  {
    if i < 0 {
      NegativePrefixOf(i, rest);
    } else {
      NonNegativePrefixOf(i, rest);
    }
  }

  lemma NegativePrefixOf(i: int, rest: string)
    requires i < 0
    requires rest == [] || !IsDigit(rest[0])
    ensures ParseIntPrefix(IntToString(i) + rest) == Some((i, rest))
  {
    var s := IntToString(i) + rest;
    assert s == "-" + (NatToString(-i) + rest);
    var n: nat := -i;
    assert s[0] == '-' && s[1..] == NatToString(n) + rest;
    NatPrefixOf(n, rest);
    assert ParseNatPrefix(s[1..]) == Some((n, rest));
    assert 0 - n as int == i;
  }

  lemma NonNegativePrefixOf(n: nat, rest: string)
    requires rest == [] || !IsDigit(rest[0])
    ensures ParseIntPrefix(IntToString(n) + rest) == Some((n as int, rest))
  {
    var s := IntToString(n) + rest;
    NatToStringShape(n);
    assert s == NatToString(n) + rest;
    assert s[0] == NatToString(n)[0] && IsDigit(s[0]);
    NatPrefixOf(n, rest);
  }

  /** Parsing the printed value, followed by anything, gives the value and that rest. */
  lemma {:induction false} ParseEncode(j: Json, rest: string)
    ensures Parse(Encode(j) + rest) == Some((j, rest))
    decreases j, 2
  {
    match j
    case JNull =>
    case JBool(b) =>
    case JNum(n) => ParseEncodeNum(n, rest);
    case JStr(t) => ParseEncodeStr(t, rest);
    case JArr(xs) => ParseEncodeArr(xs, rest);
    case JObj(ms) => ParseEncodeObj(ms, rest);
  }

  lemma ParseEncodeNum(n: int, rest: string)
    ensures Parse(Encode(JNum(n)) + rest) == Some((JNum(n), rest))
  {
    var s := Encode(JNum(n)) + rest;
    assert s == "i" + (IntToString(n) + (";" + rest));
    assert s[0] == 'i' && s[1..] == IntToString(n) + (";" + rest);
    IntPrefixOf(n, ";" + rest);
  }

  lemma ParseEncodeStr(t: string, rest: string)
    ensures Parse(Encode(JStr(t)) + rest) == Some((JStr(t), rest))
  {
    var s := Encode(JStr(t)) + rest;
    assert s == "s" + (Chunk(t) + rest);
    assert s[0] == 's' && s[1..] == Chunk(t) + rest;
    ChunkOf(t, rest);
  }

  lemma {:induction false} ParseEncodeArr(xs: seq<Json>, rest: string)
    ensures Parse(Encode(JArr(xs)) + rest) == Some((JArr(xs), rest))
    decreases xs, 1
  {
    var s := Encode(JArr(xs)) + rest;
    var body := EncodeItems(xs) + rest;
    assert s == "a" + (NatToString(|xs|) + ":" + body);
    assert s[0] == 'a' && s[1..] == NatToString(|xs|) + ":" + body;
    CountOf(|xs|, body);
    ParseEncodeItems(xs, rest);
  }

  lemma {:induction false} ParseEncodeObj(ms: seq<Member>, rest: string)
    ensures Parse(Encode(JObj(ms)) + rest) == Some((JObj(ms), rest))
    decreases ms, 1
  {
    var s := Encode(JObj(ms)) + rest;
    var body := EncodeMembers(ms) + rest;
    assert s == "o" + (NatToString(|ms|) + ":" + body);
    assert s[0] == 'o' && s[1..] == NatToString(|ms|) + ":" + body;
    CountOf(|ms|, body);
    ParseEncodeMembers(ms, rest);
  }

  lemma {:induction false} ParseEncodeItems(xs: seq<Json>, rest: string)
    ensures ParseItems(|xs|, EncodeItems(xs) + rest) == Some((xs, rest))
    decreases xs, 0
  {
    if xs != [] {
      var tail := EncodeItems(xs[1..]) + rest;
      assert EncodeItems(xs) + rest == Encode(xs[0]) + tail;
      ParseEncode(xs[0], tail);
      ParseEncodeItems(xs[1..], rest);
      assert |xs| - 1 == |xs[1..]|;
      assert ParseItems(|xs|, EncodeItems(xs) + rest)
          == Some(([xs[0]] + xs[1..], rest));
      assert [xs[0]] + xs[1..] == xs;
    } else {
      assert EncodeItems(xs) + rest == rest;
    }
  }

  lemma {:induction false} ParseEncodeMembers(ms: seq<Member>, rest: string)
    ensures ParseMembers(|ms|, EncodeMembers(ms) + rest) == Some((ms, rest))
    decreases ms, 0
  {
    if ms != [] {
      var m := ms[0];
      var tail := EncodeMembers(ms[1..]) + rest;
      var afterKey := Encode(m.value) + tail;
      assert EncodeMembers(ms) + rest == Chunk(m.key) + afterKey;
      ChunkOf(m.key, afterKey);
      ParseEncode(m.value, tail);
      ParseEncodeMembers(ms[1..], rest);
      assert ms == [Member(m.key, m.value)] + ms[1..];
    } else {
      assert EncodeMembers(ms) + rest == rest;
    }
  }

  /** `JSON.parse(JSON.stringify(v))` is v. */
  lemma DeserializeSerialize(j: Json)
    ensures Deserialize(Serialize(j)) == Some(j)
  {
    ParseEncode(j, "");
    assert Encode(j) + "" == Encode(j);
  }

  /** Two values with the same text are the same value. */
  lemma SerializeInjective(a: Json, b: Json)
    ensures Serialize(a) == Serialize(b) <==> a == b
  {
    DeserializeSerialize(a);
    DeserializeSerialize(b);
  }

  /** The empty text is not a value: parsing it is the failure case. */
  lemma DeserializeEmptyFails()
    ensures Deserialize("") == None
  {
  }
}
