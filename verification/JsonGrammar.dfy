/** The payload object model and the number formats it is printed and read with. */
module JsonValues {
  import opened Bytes

  type int64 = x: int | -0x8000_0000_0000_0000 <= x < 0x8000_0000_0000_0000

  /**
   * A payload value. Objects keep insertion order and duplicate keys; integers
   * and doubles are kept apart. `D` is the type of doubles.
   */
  datatype Json<+D> =
    | Null
    | Bool(b: bool)
    | Integer(i: int64)
    | Double(d: D)
    | String(s: bytes)
    | Array(items: seq<Json<D>>)
    | Object(fields: seq<Field<D>>)

  datatype Field<+D> = Field(key: bytes, value: Json<D>)

  /** Containers nested inside one another, the value itself included. */
  function Nesting<D>(v: Json<D>): nat
    decreases v, 1
  {
    match v
    case Array(items) => 1 + ItemsNesting(items)
    case Object(fields) => 1 + FieldsNesting(fields)
    case _ => 0
  }

  function ItemsNesting<D>(items: seq<Json<D>>): nat
    decreases items, 0
  {
    if items == [] then 0 else Max(Nesting(items[0]), ItemsNesting(items[1..]))
  }

  function FieldsNesting<D>(fields: seq<Field<D>>): nat
    decreases fields, 0
  {
    if fields == [] then 0 else Max(Nesting(fields[0].value), FieldsNesting(fields[1..]))
  }

  function Max(a: nat, b: nat): nat { if a < b then b else a }

  // ----- Decimal integers -----

  predicate IsDigit(c: byte) { 0x30 <= c <= 0x39 }

  predicate AllDigits(s: bytes) { forall i :: 0 <= i < |s| ==> IsDigit(s[i]) }

  function DigitsValue(s: bytes): (n: nat)
    requires AllDigits(s)
  {
    if s == [] then 0 else DigitsValue(s[..|s| - 1]) * 10 + (s[|s| - 1] - 0x30) as int
  }

  /** The decimal digits std::to_chars writes. */
  function Digits(n: nat): (s: bytes)
    ensures s != [] && AllDigits(s) && DigitsValue(s) == n
    ensures s == [0x30] || s[0] != 0x30
  {
    if n < 10 then [0x30 + n]
    else
      var high := Digits(n / 10);
      var s := high + [0x30 + n % 10];
      assert s[..|s| - 1] == high;
      s
  }

  // ----- Numbers, as section 6 of RFC 8259 spells them -----

  datatype Frac = NoFrac | Frac(digits: bytes)
  datatype Exp = NoExp | Exp(letter: byte, sign: bytes, digits: bytes)
  datatype Number = Number(minus: bool, digits: bytes, frac: Frac, exp: Exp)

  predicate GoodDigits(s: bytes) { s != [] && AllDigits(s) }

  predicate GoodInt(s: bytes) { GoodDigits(s) && (s[0] == 0x30 ==> s == [0x30]) }

  predicate GoodNumber(n: Number) {
    && GoodInt(n.digits)
    && (n.frac.Frac? ==> GoodDigits(n.frac.digits))
    && (n.exp.Exp? ==> (n.exp.letter == 0x65 || n.exp.letter == 0x45) && GoodDigits(n.exp.digits)
                       && (n.exp.sign == [] || n.exp.sign == [0x2B] || n.exp.sign == [0x2D]))
  }

  function MinusText(minus: bool): bytes { if minus then [0x2D] else [] }

  function FracText(f: Frac): bytes { if f.NoFrac? then [] else [0x2E] + f.digits }

  function ExpText(e: Exp): bytes { if e.NoExp? then [] else [e.letter] + (e.sign + e.digits) }

  function NumberText(n: Number): bytes {
    MinusText(n.minus) + (n.digits + (FracText(n.frac) + ExpText(n.exp)))
  }

  predicate IntegerSpelling(n: Number) { n.frac.NoFrac? && n.exp.NoExp? }

  /** std::from_chars for int64_t on an integer token; None is result_out_of_range. */
  function ReadInteger(minus: bool, digits: bytes): Option<int64>
    requires AllDigits(digits)
  {
    var n: int := if minus then 0 - DigitsValue(digits) else DigitsValue(digits);
    if -0x8000_0000_0000_0000 <= n < 0x8000_0000_0000_0000 then Some(n) else None
  }

  function Magnitude(i: int): nat { if i < 0 then -i else i }

  /** std::to_chars for int64_t. */
  function IntegerText(i: int64): bytes {
    MinusText(i < 0) + Digits(Magnitude(i))
  }

  /** std::to_chars and std::from_chars for double, and std::isfinite. */
  datatype DoubleFormat<!D(!new)> = DoubleFormat(toChars: D -> bytes, fromChars: bytes -> Option<D>, finite: D -> bool) {
    /**
     * What the standard library promises: a finite double is printed as a JSON
     * number that reads back as the same double, and a trailing ".0" does not
     * change what an integer token reads as.
     */
    ghost predicate Lawful() {
      && (forall d :: finite(d) ==> PrintsNumber(d) && fromChars(toChars(d)) == Some(d))
      && (forall n :: GoodNumber(n) && IntegerSpelling(n) ==>
            fromChars(NumberText(n.(frac := Frac([0x30])))) == fromChars(NumberText(n)))
    }

    ghost predicate PrintsNumber(d: D) {
      exists n :: GoodNumber(n) && NumberText(n) == toChars(d)
    }
  }
}

/**
 * JSON text as RFC 8259 defines it. A syntax tree records one way of writing a
 * value, whitespace and spelling included.
 */
module JsonGrammar {
  import opened Bytes
  import opened JsonValues
  import Utf8

  predicate IsWhitespace(c: byte) { c == 0x20 || c == 0x09 || c == 0x0A || c == 0x0D }

  predicate Whitespace(s: bytes) { forall i :: 0 <= i < |s| ==> IsWhitespace(s[i]) }

  // ----- Strings (section 7) -----

  /** One item of a string literal: a raw byte, a short escape, a \uXXXX or a surrogate pair. */
  datatype Piece = Raw(b: byte) | Short(c: byte) | Unit(hex: bytes) | Pair(high: bytes, low: bytes)

  function HexDigit(c: byte): (d: int)
    ensures -1 <= d < 16
  {
    if 0x30 <= c <= 0x39 then c - 0x30
    else if 0x61 <= c <= 0x66 then c - 0x61 + 10
    else if 0x41 <= c <= 0x46 then c - 0x41 + 10
    else -1
  }

  /** Hexadecimal digits of either case; any other byte is none. */
  lemma HexDigitsOfEitherCase(c: byte, d: int)
    ensures HexDigit(c) == d && d >= 0 <==>
      0 <= d < 16 && (c as char == "0123456789abcdef"[d] || c as char == "0123456789ABCDEF"[d])
  {
  }

  predicate IsHex4(h: bytes) {
    |h| == 4 && HexDigit(h[0]) >= 0 && HexDigit(h[1]) >= 0 && HexDigit(h[2]) >= 0 && HexDigit(h[3]) >= 0
  }

  function Hex4(h: bytes): (n: nat)
    requires IsHex4(h)
    ensures n < 0x10000
  {
    ((HexDigit(h[0]) * 16 + HexDigit(h[1])) * 16 + HexDigit(h[2])) * 16 + HexDigit(h[3])
  }

  predicate HighSurrogate(n: int) { 0xD800 <= n <= 0xDBFF }

  predicate LowSurrogate(n: int) { 0xDC00 <= n <= 0xDFFF }

  function Combine(high: int, low: int): (cp: int)
    requires HighSurrogate(high) && LowSurrogate(low)
    ensures 0x10000 <= cp <= 0x10FFFF
  {
    0x10000 + (high - 0xD800) * 1024 + (low - 0xDC00)
  }

  /**
   * Surrogate pairs name the scalars from U+10000 up, one pair each: the high
   * ten bits of what exceeds U+FFFF, then the low ten (section 2.1 of RFC 2781).
   */
  lemma PairsAreSupplementaryScalars(cp: int)
    requires 0x10000 <= cp <= 0x10FFFF
    ensures var high, low := 0xD800 + (cp - 0x10000) / 1024, 0xDC00 + (cp - 0x10000) % 1024;
      HighSurrogate(high) && LowSurrogate(low) && Combine(high, low) == cp
    ensures forall h1, l1, h2, l2 |
              HighSurrogate(h1) && LowSurrogate(l1) && HighSurrogate(h2) && LowSurrogate(l2) ::
              Combine(h1, l1) == cp && Combine(h2, l2) == cp ==> h1 == h2 && l1 == l2
  {
    var high, low := 0xD800 + (cp - 0x10000) / 1024, 0xDC00 + (cp - 0x10000) % 1024;
    assert HighSurrogate(high) && LowSurrogate(low) && Combine(high, low) == cp;
  }

  /** The byte a short escape stands for; 0 when the letter is not an escape. */
  function ShortEscape(c: byte): byte {
    if c == 0x22 || c == 0x5C || c == 0x2F then c
    else if c == 0x62 then 0x08
    else if c == 0x66 then 0x0C
    else if c == 0x6E then 0x0A
    else if c == 0x72 then 0x0D
    else if c == 0x74 then 0x09
    else 0
  }

  /** The escapes of section 7 of RFC 8259 and what they stand for. */
  lemma EscapesOfJson(c: byte)
    ensures ShortEscape(c) != 0 <==> c as char in "\"\\/bfnrt"
    ensures forall i :: 0 <= i < 8 ==>
      ShortEscape(("\"\\/bfnrt"[i]) as byte) == [0x22, 0x5C, 0x2F, 0x08, 0x0C, 0x0A, 0x0D, 0x09][i]
  {
  }

  predicate GoodPiece(p: Piece) {
    match p
    case Raw(b) => b >= 0x20 && b != 0x22 && b != 0x5C
    case Short(c) => ShortEscape(c) != 0
    case Unit(h) => IsHex4(h) && !HighSurrogate(Hex4(h)) && !LowSurrogate(Hex4(h))
    case Pair(h, l) => IsHex4(h) && IsHex4(l) && HighSurrogate(Hex4(h)) && LowSurrogate(Hex4(l))
  }

  /** The bytes a piece stands for. */
  function PieceValue(p: Piece): bytes
    requires GoodPiece(p)
  {
    match p
    case Raw(b) => [b]
    case Short(c) => [ShortEscape(c)]
    case Unit(h) => Utf8.Encode(Hex4(h))
    case Pair(h, l) => Utf8.Encode(Combine(Hex4(h), Hex4(l)))
  }

  predicate GoodPieces(ps: seq<Piece>) { forall i :: 0 <= i < |ps| ==> GoodPiece(ps[i]) }

  function PiecesValue(ps: seq<Piece>): bytes
    requires GoodPieces(ps)
  {
    if ps == [] then [] else PieceValue(ps[0]) + PiecesValue(ps[1..])
  }

  /** The maximal runs of raw bytes, cut at every escape; never empty. */
  function RawRuns(ps: seq<Piece>): (runs: seq<bytes>)
    ensures runs != []
  {
    if ps == [] then [[]]
    else
      var rest := RawRuns(ps[1..]);
      if ps[0].Raw? then [[ps[0].b] + rest[0]] + rest[1..] else [[]] + rest
  }

  ghost predicate AllOctets(runs: seq<bytes>) { forall i :: 0 <= i < |runs| ==> Utf8.Octets(runs[i]) }

  /**
   * A string literal: every piece well formed and every raw run UTF-8 by
   * itself, as the text of a JSON document must be (section 8.1).
   */
  ghost predicate GoodString(ps: seq<Piece>) { GoodPieces(ps) && AllOctets(RawRuns(ps)) }

  lemma EscapeIsChar(p: Piece)
    requires GoodPiece(p) && !p.Raw?
    ensures Utf8.Char(PieceValue(p))
  {
    match p
    case Short(c) =>
    case Unit(h) => Utf8.DecodeEncode(Hex4(h));
    case Pair(h, l) => Utf8.DecodeEncode(Combine(Hex4(h), Hex4(l)));
  }

  /**
   * One validation of the decoded text is worth as much as validating each raw
   * run: an escape never completes or splits a raw multi-byte sequence.
   */
  lemma DeferredCheck(ps: seq<Piece>)
    requires GoodPieces(ps)
    ensures Utf8.Octets(PiecesValue(ps)) <==> AllOctets(RawRuns(ps))
    decreases |ps|, 1
  {
    DeferredCheckAfter([], ps);
    assert [] + PiecesValue(ps) == PiecesValue(ps);
    assert [] + RawRuns(ps)[0] == RawRuns(ps)[0];
    assert RawRuns(ps) == [RawRuns(ps)[0]] + RawRuns(ps)[1..];
  }

  lemma EscapeSeparates(before: bytes, p: Piece, after: bytes)
    requires GoodPiece(p) && !p.Raw?
    ensures Utf8.Octets(before + (PieceValue(p) + after)) <==> Utf8.Octets(before + []) && Utf8.Octets(after)
  {
    EscapeIsChar(p);
    Utf8.SelfSynchronising(before, PieceValue(p), after);
    assert before + [] == before;
  }

  lemma {:induction false} DeferredCheckAfter(before: bytes, ps: seq<Piece>)
    requires GoodPieces(ps)
    ensures Utf8.Octets(before + PiecesValue(ps)) <==>
      Utf8.Octets(before + RawRuns(ps)[0]) && AllOctets(RawRuns(ps)[1..])
    decreases |ps|, 0
  {
    if ps != [] {
      var p, rest := ps[0], ps[1..];
      var runs, tail := RawRuns(rest), PiecesValue(rest);
      if p.Raw? {
        DeferredCheckAfter(before + [p.b], rest);
        Associate(before, [p.b], tail);
        Associate(before, [p.b], runs[0]);
        assert RawRuns(ps)[0] == [p.b] + runs[0] && RawRuns(ps)[1..] == runs[1..];
      } else {
        DeferredCheck(rest);
        EscapeSeparates(before, p, tail);
        assert RawRuns(ps)[0] == [] && RawRuns(ps)[1..] == runs;
      }
    }
  }

  // ----- Values (sections 2 to 6) -----

  datatype Tree =
    | TNull
    | TTrue
    | TFalse
    | TNumber(n: Number)
    | TString(ps: seq<Piece>)
    | TEmptyArray(ws: bytes)
    | TArray(elements: Elements)
    | TEmptyObject(ws: bytes)
    | TObject(members: Members)

  datatype Elements =
    | LastElement(before: bytes, value: Tree, after: bytes)
    | MoreElements(before: bytes, value: Tree, after: bytes, next: Elements)

  datatype Members =
    | LastMember(head: Head, value: Tree, after: bytes)
    | MoreMembers(head: Head, value: Tree, after: bytes, next: Members)

  /** A member up to its value: ws string ws ':' ws. */
  datatype Head = Head(before: bytes, key: seq<Piece>, afterKey: bytes, afterColon: bytes)

  /** Which value a number token denotes: an int64 if it is spelled as one, else a finite double. */
  function NumberMeaning<D(!new)>(fmt: DoubleFormat<D>, n: Number): Option<Json<D>>
    requires AllDigits(n.digits)
  {
    var integer := ReadInteger(n.minus, n.digits);
    if IntegerSpelling(n) && integer.Some? then Some(Integer(integer.value))
    else
      var double := fmt.fromChars(NumberText(n));
      if double.Some? && fmt.finite(double.value) then Some(Double(double.value)) else None
  }

  ghost predicate Good<D(!new)>(fmt: DoubleFormat<D>, t: Tree) {
    match t
    case TNumber(n) => GoodNumber(n) && NumberMeaning(fmt, n).Some?
    case TString(ps) => GoodString(ps)
    case TEmptyArray(ws) => Whitespace(ws)
    case TArray(es) => GoodElements(fmt, es)
    case TEmptyObject(ws) => Whitespace(ws)
    case TObject(ms) => GoodMembers(fmt, ms)
    case _ => true
  }

  ghost predicate GoodElements<D(!new)>(fmt: DoubleFormat<D>, es: Elements) {
    && Whitespace(es.before) && Good(fmt, es.value) && Whitespace(es.after)
    && (es.MoreElements? ==> GoodElements(fmt, es.next))
  }

  ghost predicate GoodMembers<D(!new)>(fmt: DoubleFormat<D>, ms: Members) {
    && GoodHead(ms.head) && Good(fmt, ms.value) && Whitespace(ms.after)
    && (ms.MoreMembers? ==> GoodMembers(fmt, ms.next))
  }

  ghost predicate GoodHead(h: Head) {
    Whitespace(h.before) && GoodString(h.key) && Whitespace(h.afterKey) && Whitespace(h.afterColon)
  }

  /** The value a tree denotes. */
  ghost function Meaning<D(!new)>(fmt: DoubleFormat<D>, t: Tree): Json<D>
    requires Good(fmt, t)
  {
    match t
    case TNull => Null
    case TTrue => Bool(true)
    case TFalse => Bool(false)
    case TNumber(n) => NumberMeaning(fmt, n).value
    case TString(ps) => String(PiecesValue(ps))
    case TEmptyArray(_) => Array([])
    case TArray(es) => Array(ElementsMeaning(fmt, es))
    case TEmptyObject(_) => Object([])
    case TObject(ms) => Object(MembersMeaning(fmt, ms))
  }

  ghost function ElementsMeaning<D(!new)>(fmt: DoubleFormat<D>, es: Elements): seq<Json<D>>
    requires GoodElements(fmt, es)
  {
    [Meaning(fmt, es.value)] + if es.LastElement? then [] else ElementsMeaning(fmt, es.next)
  }

  ghost function MembersMeaning<D(!new)>(fmt: DoubleFormat<D>, ms: Members): seq<Field<D>>
    requires GoodMembers(fmt, ms)
  {
    [Field(PiecesValue(ms.head.key), Meaning(fmt, ms.value))]
    + if ms.LastMember? then [] else MembersMeaning(fmt, ms.next)
  }

  function TreeNesting(t: Tree): nat {
    match t
    case TEmptyArray(_) => 1
    case TArray(es) => 1 + ElementsNesting(es)
    case TEmptyObject(_) => 1
    case TObject(ms) => 1 + MembersNesting(ms)
    case _ => 0
  }

  function ElementsNesting(es: Elements): nat {
    Max(TreeNesting(es.value), if es.LastElement? then 0 else ElementsNesting(es.next))
  }

  function MembersNesting(ms: Members): nat {
    Max(TreeNesting(ms.value), if ms.LastMember? then 0 else MembersNesting(ms.next))
  }

  // ----- Text. Each function writes its syntax in front of the text `k` that follows it. -----

  function PieceText(p: Piece, k: bytes): bytes {
    match p
    case Raw(b) => [b] + k
    case Short(c) => [0x5C, c] + k
    case Unit(h) => [0x5C, 0x75] + (h + k)
    case Pair(h, l) => [0x5C, 0x75] + (h + ([0x5C, 0x75] + (l + k)))
  }

  function PiecesText(ps: seq<Piece>, k: bytes): bytes {
    if ps == [] then k else PieceText(ps[0], PiecesText(ps[1..], k))
  }

  function StringText(ps: seq<Piece>, k: bytes): bytes { [0x22] + PiecesText(ps, [0x22] + k) }

  function HeadText(h: Head, k: bytes): bytes {
    h.before + StringText(h.key, h.afterKey + ([0x3A] + (h.afterColon + k)))
  }

  const NULL: bytes := [0x6E, 0x75, 0x6C, 0x6C]
  const TRUE: bytes := [0x74, 0x72, 0x75, 0x65]
  const FALSE: bytes := [0x66, 0x61, 0x6C, 0x73, 0x65]

  function Text(t: Tree, k: bytes): bytes {
    match t
    case TNull => NULL + k
    case TTrue => TRUE + k
    case TFalse => FALSE + k
    case TNumber(n) => NumberText(n) + k
    case TString(ps) => StringText(ps, k)
    case TEmptyArray(ws) => [0x5B] + (ws + ([0x5D] + k))
    case TArray(es) => [0x5B] + ElementsText(es, [0x5D] + k)
    case TEmptyObject(ws) => [0x7B] + (ws + ([0x7D] + k))
    case TObject(ms) => [0x7B] + MembersText(ms, [0x7D] + k)
  }

  function ElementsText(es: Elements, k: bytes): bytes {
    match es
    case LastElement(before, v, after) => before + Text(v, after + k)
    case MoreElements(before, v, after, next) => before + Text(v, after + ([0x2C] + ElementsText(next, k)))
  }

  function MembersText(ms: Members, k: bytes): bytes {
    match ms
    case LastMember(h, v, after) => HeadText(h, Text(v, after + k))
    case MoreMembers(h, v, after, next) => HeadText(h, Text(v, after + ([0x2C] + MembersText(next, k))))
  }

  /** A document: ws value ws. `text` is one way of writing `v` with at most `maxDepth` nested containers. */
  ghost predicate Spells<D(!new)>(fmt: DoubleFormat<D>, maxDepth: nat, text: bytes, v: Json<D>) {
    exists before, t, after ::
      SpelledBy(fmt, maxDepth, text, v, before, t, after)
  }

  ghost predicate SpelledBy<D(!new)>(
    fmt: DoubleFormat<D>, maxDepth: nat, text: bytes, v: Json<D>, before: bytes, t: Tree, after: bytes)
  {
    && Whitespace(before) && Whitespace(after) && Good(fmt, t) && TreeNesting(t) <= maxDepth
    && text == before + Text(t, after)
    && v == Meaning(fmt, t)
  }

  /** The nesting of a tree is the nesting of the value it denotes. */
  lemma {:induction false} NestingOfMeaning<D(!new)>(fmt: DoubleFormat<D>, t: Tree)
    requires Good(fmt, t)
    ensures Nesting(Meaning(fmt, t)) == TreeNesting(t)
  {
    match t
    case TArray(es) => NestingOfElements(fmt, es);
    case TObject(ms) => NestingOfMembers(fmt, ms);
    case _ =>
  }

  lemma {:induction false} NestingOfElements<D(!new)>(fmt: DoubleFormat<D>, es: Elements)
    requires GoodElements(fmt, es)
    ensures ItemsNesting(ElementsMeaning(fmt, es)) == ElementsNesting(es)
  {
    NestingOfMeaning(fmt, es.value);
    if es.MoreElements? {
      NestingOfElements(fmt, es.next);
      assert ElementsMeaning(fmt, es)[1..] == ElementsMeaning(fmt, es.next);
    }
  }

  lemma {:induction false} NestingOfMembers<D(!new)>(fmt: DoubleFormat<D>, ms: Members)
    requires GoodMembers(fmt, ms)
    ensures FieldsNesting(MembersMeaning(fmt, ms)) == MembersNesting(ms)
  {
    NestingOfMeaning(fmt, ms.value);
    if ms.MoreMembers? {
      NestingOfMembers(fmt, ms.next);
      assert MembersMeaning(fmt, ms)[1..] == MembersMeaning(fmt, ms.next);
    }
  }
}
