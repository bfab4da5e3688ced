/**
 * What the recursive-descent reader computes, as functions of the text that is
 * still unread. `Done(v, rest)` is success with `rest` left unread.
 */
module JsonParsing {
  import opened Bytes
  import opened JsonValues
  import opened JsonGrammar
  import Utf8

  datatype Parsed<+T> = Fail | Done(value: T, rest: bytes)

  function SkipWs(s: bytes): (rest: bytes)
    ensures |rest| <= |s|
    ensures rest != [] ==> !IsWhitespace(rest[0])
  {
    if s != [] && IsWhitespace(s[0]) then SkipWs(s[1..]) else s
  }

  function Literal<D>(s: bytes, word: bytes, v: Json<D>): (r: Parsed<Json<D>>)
    ensures r.Done? ==> |r.rest| + |word| == |s|
  {
    if word <= s then Done(v, s[|word|..]) else Fail
  }

  // ----- Numbers -----

  function LeadingDigits(s: bytes): (n: nat)
    ensures n <= |s| && AllDigits(s[..n])
  {
    if s != [] && IsDigit(s[0]) then 1 + LeadingDigits(s[1..]) else 0
  }

  function ReadInt(s: bytes): (r: Parsed<bytes>)
    ensures r.Done? ==> |r.rest| < |s| && AllDigits(r.value)
  {
    if s == [] then Fail
    else if s[0] == 0x30 then
      if |s| > 1 && IsDigit(s[1]) then Fail else Done([0x30], s[1..])
    else if IsDigit(s[0]) then
      var n := LeadingDigits(s);
      Done(s[..n], s[n..])
    else Fail
  }

  function ReadDigits(s: bytes): (r: Parsed<bytes>)
    ensures r.Done? ==> |r.rest| < |s|
  {
    var n := LeadingDigits(s);
    if n == 0 then Fail else Done(s[..n], s[n..])
  }

  function ReadFrac(s: bytes): (r: Parsed<Frac>)
    ensures r.Done? ==> |r.rest| <= |s|
  {
    if s != [] && s[0] == 0x2E then
      match ReadDigits(s[1..])
      case Fail => Fail
      case Done(digits, rest) => Done(Frac(digits), rest)
    else Done(NoFrac, s)
  }

  function ReadSign(s: bytes): bytes {
    if s != [] && (s[0] == 0x2B || s[0] == 0x2D) then [s[0]] else []
  }

  function ReadExp(s: bytes): (r: Parsed<Exp>)
    ensures r.Done? ==> |r.rest| <= |s|
  {
    if s != [] && (s[0] == 0x65 || s[0] == 0x45) then
      var sign := ReadSign(s[1..]);
      match ReadDigits(s[1..][|sign|..])
      case Fail => Fail
      case Done(digits, rest) => Done(Exp(s[0], sign, digits), rest)
    else Done(NoExp, s)
  }

  function ReadMinus(s: bytes): (minus: bool) { s != [] && s[0] == 0x2D }

  function ReadNumber(s: bytes): (r: Parsed<Number>)
    ensures r.Done? ==> |r.rest| < |s| && AllDigits(r.value.digits)
  {
    var minus := ReadMinus(s);
    match ReadInt(if minus then s[1..] else s)
    case Fail => Fail
    case Done(digits, s1) =>
      match ReadFrac(s1)
      case Fail => Fail
      case Done(frac, s2) =>
        match ReadExp(s2)
        case Fail => Fail
        case Done(exp, s3) => Done(Number(minus, digits, frac, exp), s3)
  }

  function ParseNumber<D(!new)>(fmt: DoubleFormat<D>, s: bytes): (r: Parsed<Json<D>>)
    ensures r.Done? ==> |r.rest| < |s|
  {
    match ReadNumber(s)
    case Fail => Fail
    case Done(n, rest) =>
      var v := NumberMeaning(fmt, n);
      if v.Some? then Done(v.value, rest) else Fail
  }

  // ----- Strings -----

  function ReadHex4(s: bytes): (r: Parsed<nat>)
    ensures r.Done? ==> |r.rest| < |s| && r.value < 0x10000
  {
    if |s| >= 4 && IsHex4(s[..4]) then Done(Hex4(s[..4]), s[4..]) else Fail
  }

  function ParseUnicode(s: bytes): (r: Parsed<bytes>)
    ensures r.Done? ==> |r.rest| < |s|
  {
    match ReadHex4(s)
    case Fail => Fail
    case Done(cp, s1) =>
      if HighSurrogate(cp) then
        if |s1| < 2 || s1[0] != 0x5C || s1[1] != 0x75 then Fail
        else
          match ReadHex4(s1[2..])
          case Fail => Fail
          case Done(low, s2) =>
            if LowSurrogate(low) then Done(Utf8.Encode(Combine(cp, low)), s2) else Fail
      else if LowSurrogate(cp) then Fail
      else Done(Utf8.Encode(cp), s1)
  }

  function ParseEscape(s: bytes): (r: Parsed<bytes>)
    ensures r.Done? ==> |r.rest| < |s|
  {
    if s == [] then Fail
    else if s[0] == 0x75 then ParseUnicode(s[1..])
    else if ShortEscape(s[0]) != 0 then Done([ShortEscape(s[0])], s[1..])
    else Fail
  }

  /** The loop of parseString: `text` has been decoded so far. */
  function ScanString(s: bytes, text: bytes): (r: Parsed<bytes>)
    ensures r.Done? ==> |r.rest| < |s|
    decreases |s|
  {
    if s == [] then Fail
    else if s[0] == 0x22 then
      if Utf8.Octets(text) then Done(text, s[1..]) else Fail
    else if s[0] == 0x5C then
      match ParseEscape(s[1..])
      case Fail => Fail
      case Done(decoded, rest) => ScanString(rest, text + decoded)
    else if s[0] < 0x20 then Fail
    else ScanString(s[1..], text + [s[0]])
  }

  function ParseString(s: bytes): (r: Parsed<bytes>)
    ensures r.Done? ==> |r.rest| < |s|
  {
    if s == [] || s[0] != 0x22 then Fail else ScanString(s[1..], [])
  }

  // ----- Values -----

  datatype Config<!D(!new)> = Config(fmt: DoubleFormat<D>, maxDepth: nat)

  function ParseValue<D(!new)>(cfg: Config<D>, depth: nat, s: bytes): (r: Parsed<Json<D>>)
    ensures r.Done? ==> |r.rest| < |s|
    decreases |s|, 0
  {
    if s == [] then Fail
    else if s[0] == 0x6E then Literal(s, NULL, Null)
    else if s[0] == 0x74 then Literal(s, TRUE, Bool(true))
    else if s[0] == 0x66 then Literal(s, FALSE, Bool(false))
    else if s[0] == 0x22 then
      match ParseString(s)
      case Fail => Fail
      case Done(text, rest) => Done(String(text), rest)
    else if s[0] == 0x5B then ParseArray(cfg, depth, s[1..])
    else if s[0] == 0x7B then ParseObject(cfg, depth, s[1..])
    else ParseNumber(cfg.fmt, s)
  }

  /** parseArray, after the opening bracket. */
  function ParseArray<D(!new)>(cfg: Config<D>, depth: nat, s: bytes): (r: Parsed<Json<D>>)
    ensures r.Done? ==> |r.rest| < |s|
    decreases |s|, 2
  {
    var s1 := SkipWs(s);
    if depth >= cfg.maxDepth then Fail
    else if s1 != [] && s1[0] == 0x5D then Done(Array([]), s1[1..])
    else
      match ParseElements(cfg, depth + 1, s1, [])
      case Fail => Fail
      case Done(items, rest) => Done(Array(items), rest)
  }

  /** parseObject, after the opening brace. */
  function ParseObject<D(!new)>(cfg: Config<D>, depth: nat, s: bytes): (r: Parsed<Json<D>>)
    ensures r.Done? ==> |r.rest| < |s|
    decreases |s|, 2
  {
    var s1 := SkipWs(s);
    if depth >= cfg.maxDepth then Fail
    else if s1 != [] && s1[0] == 0x7D then Done(Object([]), s1[1..])
    else
      match ParseMembers(cfg, depth + 1, s1, [])
      case Fail => Fail
      case Done(fields, rest) => Done(Object(fields), rest)
  }

  /** The loop of parseArray, from the start of an element. */
  function ParseElements<D(!new)>(cfg: Config<D>, depth: nat, s: bytes, items: seq<Json<D>>)
    : (r: Parsed<seq<Json<D>>>)
    ensures r.Done? ==> |r.rest| < |s|
    decreases |s|, 1
  {
    match ParseValue(cfg, depth, SkipWs(s))
    case Fail => Fail
    case Done(v, s1) =>
      var s2 := SkipWs(s1);
      if s2 == [] then Fail
      else if s2[0] == 0x2C then ParseElements(cfg, depth, s2[1..], items + [v])
      else if s2[0] == 0x5D then Done(items + [v], s2[1..])
      else Fail
  }

  /** A key and its colon, up to where the value starts. */
  function ParseHead(s: bytes): (r: Parsed<bytes>)
    ensures r.Done? ==> |r.rest| < |s|
  {
    match ParseString(SkipWs(s))
    case Fail => Fail
    case Done(key, s1) =>
      var s2 := SkipWs(s1);
      if s2 == [] || s2[0] != 0x3A then Fail else Done(key, SkipWs(s2[1..]))
  }

  /** The loop of parseObject, from the start of a member. */
  function ParseMembers<D(!new)>(cfg: Config<D>, depth: nat, s: bytes, fields: seq<Field<D>>)
    : (r: Parsed<seq<Field<D>>>)
    ensures r.Done? ==> |r.rest| < |s|
    decreases |s|, 1
  {
    match ParseHead(s)
    case Fail => Fail
    case Done(key, s1) =>
      match ParseValue(cfg, depth, s1)
      case Fail => Fail
      case Done(v, s2) =>
        var s3 := SkipWs(s2);
        if s3 == [] then Fail
        else if s3[0] == 0x2C then ParseMembers(cfg, depth, s3[1..], fields + [Field(key, v)])
        else if s3[0] == 0x7D then Done(fields + [Field(key, v)], s3[1..])
        else Fail
  }

  /** Reader::parse: a whole document. */
  function Parse<D(!new)>(cfg: Config<D>, s: bytes): Option<Json<D>> {
    match ParseValue(cfg, 0, SkipWs(s))
    case Fail => None
    case Done(v, rest) => if SkipWs(rest) == [] then Some(v) else None
  }
}
