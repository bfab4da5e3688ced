/** The one way, among all texts of the grammar, in which the writer spells a value. */
module JsonWriting {
  import opened Bytes
  import opened JsonValues
  import opened JsonGrammar
  import opened JsonParsing
  import JsonComplete
  import Utf8

  // ----- What is writable -----

  /** Strings and keys are UTF-8 and doubles are finite. */
  predicate Printable<D(!new)>(fmt: DoubleFormat<D>, v: Json<D>)
    decreases v, 1
  {
    match v
    case Double(d) => fmt.finite(d)
    case String(s) => Utf8.Octets(s)
    case Array(items) => ItemsPrintable(fmt, items)
    case Object(fields) => FieldsPrintable(fmt, fields)
    case _ => true
  }

  predicate ItemsPrintable<D(!new)>(fmt: DoubleFormat<D>, items: seq<Json<D>>)
    decreases items, 0
  {
    items == [] || (Printable(fmt, items[0]) && ItemsPrintable(fmt, items[1..]))
  }

  predicate FieldsPrintable<D(!new)>(fmt: DoubleFormat<D>, fields: seq<Field<D>>)
    decreases fields, 0
  {
    fields == [] ||
    (Utf8.Octets(fields[0].key) && Printable(fmt, fields[0].value) && FieldsPrintable(fmt, fields[1..]))
  }

  // ----- Canonical spelling -----

  function HexChar(d: int): byte
    requires 0 <= d < 16
  {
    if d < 10 then 0x30 + d else 0x61 + d - 10
  }

  /** How one byte of a string is written. */
  function CanonPiece(c: byte): Piece {
    if c == 0x22 || c == 0x5C then Short(c)
    else if c == 0x08 then Short(0x62)
    else if c == 0x0C then Short(0x66)
    else if c == 0x0A then Short(0x6E)
    else if c == 0x0D then Short(0x72)
    else if c == 0x09 then Short(0x74)
    else if c < 0x20 then Unit([0x30, 0x30, HexChar(c / 16), HexChar(c % 16)])
    else Raw(c)
  }

  lemma CanonPieceGood(c: byte)
    ensures GoodPiece(CanonPiece(c)) && PieceValue(CanonPiece(c)) == [c]
  {
  }

  function CanonPieces(s: bytes): seq<Piece> {
    if s == [] then [] else [CanonPiece(s[0])] + CanonPieces(s[1..])
  }

  lemma {:induction false} CanonPiecesGood(s: bytes)
    ensures GoodPieces(CanonPieces(s)) && PiecesValue(CanonPieces(s)) == s
  {
    if s != [] {
      var ps := CanonPieces(s);
      CanonPieceGood(s[0]);
      CanonPiecesGood(s[1..]);
      assert ps[1..] == CanonPieces(s[1..]);
      assert s == [s[0]] + s[1..];
    }
  }

  lemma CanonStringGood(s: bytes)
    requires Utf8.Octets(s)
    ensures GoodString(CanonPieces(s)) && PiecesValue(CanonPieces(s)) == s
  {
    CanonPiecesGood(s);
    DeferredCheck(CanonPieces(s));
  }

  /** A double printed as an integer gets ".0" so that it stays a double. */
  function Decorate(n: Number): Number {
    if IntegerSpelling(n) then n.(frac := Frac([0x30])) else n
  }

  function CanonDouble<D(!new)>(fmt: DoubleFormat<D>, d: D): Number {
    match ReadNumber(fmt.toChars(d))
    case Done(n, _) => Decorate(n)
    case Fail => Number(false, [0x30], NoFrac, NoExp)
  }

  function Canon<D(!new)>(fmt: DoubleFormat<D>, v: Json<D>): Tree
    decreases v, 1
  {
    match v
    case Null => TNull
    case Bool(b) => if b then TTrue else TFalse
    case Integer(i) => TNumber(Number(i < 0, Digits(Magnitude(i)), NoFrac, NoExp))
    case Double(d) => TNumber(CanonDouble(fmt, d))
    case String(s) => TString(CanonPieces(s))
    case Array(items) => if items == [] then TEmptyArray([]) else TArray(CanonElements(fmt, items))
    case Object(fields) => if fields == [] then TEmptyObject([]) else TObject(CanonMembers(fmt, fields))
  }

  function CanonElements<D(!new)>(fmt: DoubleFormat<D>, items: seq<Json<D>>): Elements
    requires items != []
    decreases items, 0
  {
    var t := Canon(fmt, items[0]);
    if |items| == 1 then LastElement([], t, []) else MoreElements([], t, [], CanonElements(fmt, items[1..]))
  }

  function CanonHead(key: bytes): Head { Head([], CanonPieces(key), [], []) }

  function CanonMembers<D(!new)>(fmt: DoubleFormat<D>, fields: seq<Field<D>>): Members
    requires fields != []
    decreases fields, 0
  {
    var h, t := CanonHead(fields[0].key), Canon(fmt, fields[0].value);
    if |fields| == 1 then LastMember(h, t, []) else MoreMembers(h, t, [], CanonMembers(fmt, fields[1..]))
  }

  /** JsonWriter::write: the text, or None when the value is refused. */
  function Written<D(!new)>(cfg: Config<D>, v: Json<D>): Option<bytes> {
    if Nesting(v) <= cfg.maxDepth && Printable(cfg.fmt, v) then Some(Text(Canon(cfg.fmt, v), [])) else None
  }

  // ----- The canonical tree is a good tree for its value -----

  lemma IntegerCanon<D(!new)>(fmt: DoubleFormat<D>, i: int64)
    ensures Good(fmt, Canon(fmt, Integer(i))) && Meaning(fmt, Canon(fmt, Integer(i))) == Integer(i)
  {
  }

  /** Reading back what to_chars printed recovers the number it spelled. */
  lemma DoubleSpelling<D(!new)>(fmt: DoubleFormat<D>, d: D) returns (n: Number)
    requires fmt.Lawful() && fmt.finite(d)
    ensures GoodNumber(n) && NumberText(n) == fmt.toChars(d) && CanonDouble(fmt, d) == Decorate(n)
  {
    assert fmt.PrintsNumber(d);
    n :| GoodNumber(n) && NumberText(n) == fmt.toChars(d);
    JsonComplete.ReadNumberOf(n, []);
    assert NumberText(n) + [] == NumberText(n);
  }

  lemma DoubleCanon<D(!new)>(fmt: DoubleFormat<D>, d: D)
    requires fmt.Lawful() && fmt.finite(d)
    ensures Good(fmt, Canon(fmt, Double(d))) && Meaning(fmt, Canon(fmt, Double(d))) == Double(d)
  {
    var n := DoubleSpelling(fmt, d);
    var m := Decorate(n);
    assert fmt.fromChars(fmt.toChars(d)) == Some(d);
    assert fmt.fromChars(NumberText(m)) == Some(d);
    assert GoodNumber(m) && !IntegerSpelling(m);
  }

  lemma {:induction false} CanonGood<D(!new)>(fmt: DoubleFormat<D>, v: Json<D>)
    requires fmt.Lawful() && Printable(fmt, v)
    ensures Good(fmt, Canon(fmt, v)) && Meaning(fmt, Canon(fmt, v)) == v
    decreases v, 1
  {
    match v
    case Integer(i) => IntegerCanon(fmt, i);
    case Double(d) => DoubleCanon(fmt, d);
    case String(s) => CanonStringGood(s);
    case Array(items) => if items != [] { CanonElementsGood(fmt, items); }
    case Object(fields) => if fields != [] { CanonMembersGood(fmt, fields); }
    case _ =>
  }

  lemma {:induction false} CanonElementsGood<D(!new)>(fmt: DoubleFormat<D>, items: seq<Json<D>>)
    requires fmt.Lawful() && items != [] && ItemsPrintable(fmt, items)
    ensures GoodElements(fmt, CanonElements(fmt, items)) && ElementsMeaning(fmt, CanonElements(fmt, items)) == items
    decreases items, 0
  {
    CanonGood(fmt, items[0]);
    assert items == [items[0]] + items[1..];
    if |items| > 1 {
      CanonElementsGood(fmt, items[1..]);
    }
  }

  lemma {:induction false} CanonMembersGood<D(!new)>(fmt: DoubleFormat<D>, fields: seq<Field<D>>)
    requires fmt.Lawful() && fields != [] && FieldsPrintable(fmt, fields)
    ensures GoodMembers(fmt, CanonMembers(fmt, fields)) && MembersMeaning(fmt, CanonMembers(fmt, fields)) == fields
    decreases fields, 0
  {
    CanonStringGood(fields[0].key);
    CanonGood(fmt, fields[0].value);
    assert fields == [fields[0]] + fields[1..];
    if |fields| > 1 {
      CanonMembersGood(fmt, fields[1..]);
    }
  }

  // ----- Values that trees denote are printable -----

  lemma {:induction false} MeaningPrintable<D(!new)>(fmt: DoubleFormat<D>, t: Tree)
    requires Good(fmt, t)
    ensures Printable(fmt, Meaning(fmt, t))
  {
    match t
    case TString(ps) => DeferredCheck(ps);
    case TArray(es) => ElementsPrintable(fmt, es);
    case TObject(ms) => MembersPrintable(fmt, ms);
    case _ =>
  }

  lemma {:induction false} ElementsPrintable<D(!new)>(fmt: DoubleFormat<D>, es: Elements)
    requires GoodElements(fmt, es)
    ensures ItemsPrintable(fmt, ElementsMeaning(fmt, es))
  {
    MeaningPrintable(fmt, es.value);
    if es.MoreElements? {
      ElementsPrintable(fmt, es.next);
      assert ElementsMeaning(fmt, es)[1..] == ElementsMeaning(fmt, es.next);
    }
  }

  lemma {:induction false} MembersPrintable<D(!new)>(fmt: DoubleFormat<D>, ms: Members)
    requires GoodMembers(fmt, ms)
    ensures FieldsPrintable(fmt, MembersMeaning(fmt, ms))
  {
    DeferredCheck(ms.head.key);
    MeaningPrintable(fmt, ms.value);
    if ms.MoreMembers? {
      MembersPrintable(fmt, ms.next);
      assert MembersMeaning(fmt, ms)[1..] == MembersMeaning(fmt, ms.next);
    }
  }
}

module JsonRoundTrip {
  import opened Bytes
  import opened JsonValues
  import opened JsonGrammar
  import opened JsonParsing
  import opened JsonWriting
  import JsonSound

  /** Whatever the writer accepts, the parser with the same bound reads back as the same value. */
  lemma RoundTrip<D(!new)>(cfg: Config<D>, v: Json<D>)
    requires cfg.fmt.Lawful() && Written(cfg, v).Some?
    ensures Parse(cfg, Written(cfg, v).value) == Some(v)
  {
    var t := Canon(cfg.fmt, v);
    CanonGood(cfg.fmt, v);
    NestingOfMeaning(cfg.fmt, t);
    assert Text(t, []) == [] + Text(t, []);
    assert SpelledBy(cfg.fmt, cfg.maxDepth, Text(t, []), v, [], t, []);
    JsonSound.ParserIsGrammar(cfg, Text(t, []), v);
  }

  /** Printed values differ whenever the values do: the text determines the value. */
  lemma WrittenInjective<D(!new)>(cfg: Config<D>, v: Json<D>, w: Json<D>)
    requires cfg.fmt.Lawful() && Written(cfg, v).Some? && Written(cfg, v) == Written(cfg, w)
    ensures v == w
  {
    RoundTrip(cfg, v);
    RoundTrip(cfg, w);
  }

  /**
   * Whatever the parser accepts is within the depth bound and printable; the
   * writer with the same bound accepts it and the text it writes reads back as
   * the same value.
   */
  lemma ParsedIsPrintable<D(!new)>(cfg: Config<D>, text: bytes)
    requires cfg.fmt.Lawful() && Parse(cfg, text).Some?
    ensures var v := Parse(cfg, text).value;
      && Nesting(v) <= cfg.maxDepth && Printable(cfg.fmt, v)
      && Written(cfg, v).Some? && Parse(cfg, Written(cfg, v).value) == Some(v)
  {
    var v := Parse(cfg, text).value;
    JsonSound.ParserIsGrammar(cfg, text, v);
    var before, t, after :| SpelledBy(cfg.fmt, cfg.maxDepth, text, v, before, t, after);
    NestingOfMeaning(cfg.fmt, t);
    MeaningPrintable(cfg.fmt, t);
    RoundTrip(cfg, v);
  }

  /** A format with one finite double, printed "0", and one infinity. */
  const ZERO_ONLY: DoubleFormat<bool> := DoubleFormat(d => [0x30], s => Some(false), d => !d)

  /** The laws asked of double formatting can be met. */
  lemma LawfulFormatExists()
    ensures ZERO_ONLY.Lawful() && ZERO_ONLY.finite(false)
  {
    var zero := Number(false, [0x30], NoFrac, NoExp);
    assert GoodNumber(zero) && NumberText(zero) == [0x30];
    assert ZERO_ONLY.PrintsNumber(false);
  }
}
