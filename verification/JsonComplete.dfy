/** Every text of the grammar is accepted, and parsing stops exactly where the text ends. */
module JsonComplete {
  import opened Bytes
  import opened JsonValues
  import opened JsonGrammar
  import opened JsonParsing
  import Utf8

  lemma {:induction false} SkipWsOver(ws: bytes, k: bytes)
    requires Whitespace(ws)
    ensures SkipWs(ws + k) == SkipWs(k)
  {
    if ws == [] {
      assert ws + k == k;
    } else {
      assert (ws + k)[1..] == ws[1..] + k;
      SkipWsOver(ws[1..], k);
    }
  }

  // ----- Numbers -----

  /** What may follow a value: end of text, whitespace, a comma or a closing bracket. */
  predicate Follow(k: bytes) {
    k == [] || IsWhitespace(k[0]) || k[0] == 0x2C || k[0] == 0x5D || k[0] == 0x7D
  }

  predicate NoDigit(k: bytes) { k == [] || !IsDigit(k[0]) }

  lemma {:induction false} LeadingDigitsOf(ds: bytes, k: bytes)
    requires AllDigits(ds) && NoDigit(k)
    ensures LeadingDigits(ds + k) == |ds|
    ensures (ds + k)[..|ds|] == ds && (ds + k)[|ds|..] == k
  {
    if ds == [] {
      assert ds + k == k;
    } else {
      assert (ds + k)[1..] == ds[1..] + k;
      LeadingDigitsOf(ds[1..], k);
    }
  }

  lemma ReadIntOf(ds: bytes, k: bytes)
    requires GoodInt(ds) && NoDigit(k)
    ensures ReadInt(ds + k) == Done(ds, k)
  {
    LeadingDigitsOf(ds, k);
    if ds[0] == 0x30 {
      assert (ds + k)[1..] == k;
    }
  }

  lemma ReadFracOf(f: Frac, k: bytes)
    requires f.Frac? ==> GoodDigits(f.digits)
    requires NoDigit(k) && (f.NoFrac? ==> k == [] || k[0] != 0x2E)
    ensures ReadFrac(FracText(f) + k) == Done(f, k)
  {
    if f.Frac? {
      assert (FracText(f) + k)[1..] == f.digits + k;
      LeadingDigitsOf(f.digits, k);
    } else {
      assert [] + k == k;
    }
  }

  lemma ExpTextThen(e: Exp, k: bytes)
    requires e.Exp?
    ensures ExpText(e) + k == [e.letter] + (e.sign + (e.digits + k))
  {
  }

  lemma ReadExpStages(letter: byte, sign: bytes, ds: bytes, digits: bytes, rest: bytes)
    requires (letter == 0x65 || letter == 0x45) && (sign == [] || sign == [0x2B] || sign == [0x2D])
    requires ReadDigits(ds) == Done(digits, rest)
    ensures ReadExp([letter] + (sign + ds)) == Done(Exp(letter, sign, digits), rest)
  {
  }

  lemma ReadExpOf(e: Exp, k: bytes)
    requires e.Exp? ==> (e.letter == 0x65 || e.letter == 0x45) && GoodDigits(e.digits)
                        && (e.sign == [] || e.sign == [0x2B] || e.sign == [0x2D])
    requires NoDigit(k) && (e.NoExp? ==> k == [] || (k[0] != 0x65 && k[0] != 0x45))
    ensures ReadExp(ExpText(e) + k) == Done(e, k)
  {
    if e.Exp? {
      ExpTextThen(e, k);
      assert ReadDigits(e.digits + k) == Done(e.digits, k) by { LeadingDigitsOf(e.digits, k); }
      ReadExpStages(e.letter, e.sign, e.digits + k, e.digits, k);
    } else {
      assert [] + k == k;
    }
  }

  /** The heads of what follows the integer part and the fraction of a number. */
  lemma NumberHeads(n: Number, k: bytes)
    requires Follow(k)
    requires n.exp.Exp? ==> n.exp.letter == 0x65 || n.exp.letter == 0x45
    ensures var k2 := ExpText(n.exp) + k;
      NoDigit(k2) && (k2 == [] || k2[0] != 0x2E) && NoDigit(FracText(n.frac) + k2)
  {
    var k2 := ExpText(n.exp) + k;
    if n.exp.NoExp? {
      assert k2 == k;
    } else {
      assert k2[0] == n.exp.letter;
    }
    if n.frac.NoFrac? {
      assert FracText(n.frac) + k2 == k2;
    } else {
      assert (FracText(n.frac) + k2)[0] == 0x2E;
    }
  }

  lemma NumberTextThen(n: Number, k: bytes)
    ensures NumberText(n) + k == MinusText(n.minus) + (n.digits + (FracText(n.frac) + (ExpText(n.exp) + k)))
  {
  }

  lemma ReadMinusOf(minus: bool, k: bytes)
    requires k != [] && k[0] != 0x2D
    ensures var s := MinusText(minus) + k;
      ReadMinus(s) == minus && (if minus then s[1..] else s) == k
  {
  }

  lemma ReadNumberStages(s: bytes, n: Number, s0: bytes, s1: bytes, s2: bytes, s3: bytes)
    requires ReadMinus(s) == n.minus && (if n.minus then s[1..] else s) == s0
    requires ReadInt(s0) == Done(n.digits, s1) && ReadFrac(s1) == Done(n.frac, s2) && ReadExp(s2) == Done(n.exp, s3)
    ensures ReadNumber(s) == Done(n, s3)
  {
  }

  lemma ReadNumberOf(n: Number, k: bytes)
    requires GoodNumber(n) && Follow(k)
    ensures ReadNumber(NumberText(n) + k) == Done(n, k)
  {
    var k2 := ExpText(n.exp) + k;
    var k1 := FracText(n.frac) + k2;
    var k0 := n.digits + k1;
    assert k0[0] == n.digits[0];
    NumberHeads(n, k);
    assert ReadExp(k2) == Done(n.exp, k) by { ReadExpOf(n.exp, k); }
    assert ReadFrac(k1) == Done(n.frac, k2) by { ReadFracOf(n.frac, k2); }
    assert ReadInt(k0) == Done(n.digits, k1) by { ReadIntOf(n.digits, k1); }
    ReadMinusOf(n.minus, k0);
    ReadNumberStages(MinusText(n.minus) + k0, n, k0, k1, k2, k);
    NumberTextThen(n, k);
  }

  // ----- Strings -----

  lemma ReadHex4Of(h: bytes, k: bytes)
    requires IsHex4(h)
    ensures ReadHex4(h + k) == Done(Hex4(h), k)
  {
  }

  lemma ParseUnicodeOf(p: Piece, k: bytes)
    requires GoodPiece(p) && (p.Unit? || p.Pair?)
    ensures PieceText(p, k)[0] == 0x5C && PieceText(p, k)[1] == 0x75
    ensures ParseUnicode(PieceText(p, k)[2..]) == Done(PieceValue(p), k)
  {
    match p {
      case Unit(h) =>
        assert PieceText(p, k)[2..] == h + k;
        ReadHex4Of(h, k);
      case Pair(h, l) =>
        var k1 := [0x5C, 0x75] + (l + k);
        assert PieceText(p, k)[2..] == h + k1;
        ReadHex4Of(h, k1);
        assert k1[2..] == l + k;
        ReadHex4Of(l, k);
    }
  }

  lemma ScanPiece(p: Piece, k: bytes, text: bytes)
    requires GoodPiece(p)
    ensures ScanString(PieceText(p, k), text) == ScanString(k, text + PieceValue(p))
  {
    var s := PieceText(p, k);
    match p {
      case Raw(b) =>
        assert s[1..] == k;
      case Short(c) =>
        assert s[1..][0] == c && s[1..][1..] == k;
      case _ =>
        ParseUnicodeOf(p, k);
        assert s[1..][0] == 0x75 && s[1..][1..] == s[2..];
    }
  }

  lemma {:induction false} ScanPieces(ps: seq<Piece>, k: bytes, text: bytes)
    requires GoodPieces(ps)
    ensures ScanString(PiecesText(ps, k), text) == ScanString(k, text + PiecesValue(ps))
    decreases |ps|
  {
    if ps == [] {
      assert text + [] == text;
    } else {
      var first, rest := PieceValue(ps[0]), PiecesValue(ps[1..]);
      calc {
        ScanString(PiecesText(ps, k), text);
        { ScanPiece(ps[0], PiecesText(ps[1..], k), text); }
        ScanString(PiecesText(ps[1..], k), text + first);
        { ScanPieces(ps[1..], k, text + first); }
        ScanString(k, text + first + rest);
        { assert text + first + rest == text + (first + rest); }
        ScanString(k, text + PiecesValue(ps));
      }
    }
  }

  lemma ParseStringOf(ps: seq<Piece>, k: bytes)
    requires GoodPieces(ps)
    ensures ParseString(StringText(ps, k)) ==
      if Utf8.Octets(PiecesValue(ps)) then Done(PiecesValue(ps), k) else Fail
  {
    assert StringText(ps, k)[1..] == PiecesText(ps, [0x22] + k);
    ScanPieces(ps, [0x22] + k, []);
    assert [] + PiecesValue(ps) == PiecesValue(ps);
    assert ([0x22] + k)[1..] == k;
  }

  /**
   * A quoted sequence of well-formed pieces is accepted exactly when every
   * maximal raw run between escapes is UTF-8 on its own.
   */
  lemma StringAcceptedIffRunsValid(ps: seq<Piece>, k: bytes)
    requires GoodPieces(ps)
    ensures ParseString(StringText(ps, k)).Done? <==> AllOctets(RawRuns(ps))
    ensures AllOctets(RawRuns(ps)) ==> ParseString(StringText(ps, k)) == Done(PiecesValue(ps), k)
  {
    ParseStringOf(ps, k);
    DeferredCheck(ps);
  }

  // ----- Values -----

  /** The first byte of a value decides which branch parseValue takes. */
  lemma TextStarts(t: Tree, k: bytes)
    requires t.TNumber? ==> GoodNumber(t.n)
    ensures Text(t, k) != [] && !IsWhitespace(Text(t, k)[0]) && Text(t, k)[0] != 0x5D
    ensures t.TNumber? ==> Text(t, k)[0] == 0x2D || IsDigit(Text(t, k)[0])
  {
  }

  lemma LiteralOf<D>(word: bytes, v: Json<D>, k: bytes)
    ensures Literal(word + k, word, v) == Done(v, k)
  {
  }

  lemma NumberBranch<D(!new)>(cfg: Config<D>, depth: nat, s: bytes)
    requires s != [] && (s[0] == 0x2D || IsDigit(s[0]))
    ensures ParseValue(cfg, depth, s) == ParseNumber(cfg.fmt, s)
  {
    var c := s[0];
    assert c != 0x6E && c != 0x74 && c != 0x66 && c != 0x22 && c != 0x5B && c != 0x7B;
  }

  lemma ParseNumberOf<D(!new)>(cfg: Config<D>, depth: nat, n: Number, k: bytes)
    requires GoodNumber(n) && NumberMeaning(cfg.fmt, n).Some? && Follow(k)
    ensures ParseValue(cfg, depth, NumberText(n) + k) == Done(NumberMeaning(cfg.fmt, n).value, k)
  {
    TextStarts(TNumber(n), k);
    NumberBranch(cfg, depth, NumberText(n) + k);
    ReadNumberOf(n, k);
  }

  lemma {:induction false} ParseValueOf<D(!new)>(cfg: Config<D>, depth: nat, t: Tree, k: bytes)
    requires Good(cfg.fmt, t) && depth + TreeNesting(t) <= cfg.maxDepth && Follow(k)
    ensures ParseValue(cfg, depth, Text(t, k)) == Done(Meaning(cfg.fmt, t), k)
    decreases t, 0
  {
    match t {
      case TNull => LiteralOf<Json<D>>(NULL, Null, k);
      case TTrue => LiteralOf<Json<D>>(TRUE, Bool(true), k);
      case TFalse => LiteralOf<Json<D>>(FALSE, Bool(false), k);
      case TNumber(n) => ParseNumberOf(cfg, depth, n, k);
      case TString(ps) => StringAcceptedIffRunsValid(ps, k);
      case TEmptyArray(ws) => ParseEmptyOf(cfg, depth, t, ws, k);
      case TEmptyObject(ws) => ParseEmptyOf(cfg, depth, t, ws, k);
      case TArray(es) => ParseArrayOf(cfg, depth, es, k);
      case TObject(ms) => ParseObjectOf(cfg, depth, ms, k);
    }
  }

  lemma ParseEmptyOf<D(!new)>(cfg: Config<D>, depth: nat, t: Tree, ws: bytes, k: bytes)
    requires (t == TEmptyArray(ws) || t == TEmptyObject(ws)) && Whitespace(ws) && depth < cfg.maxDepth
    ensures ParseValue(cfg, depth, Text(t, k)) == Done(Meaning(cfg.fmt, t), k)
  {
    var close: bytes := if t.TEmptyArray? then [0x5D] else [0x7D];
    assert Text(t, k)[1..] == ws + (close + k);
    SkipWsOver(ws, close + k);
    assert (close + k)[1..] == k;
  }

  lemma ArrayBranch<D(!new)>(cfg: Config<D>, depth: nat, body: bytes, items: seq<Json<D>>, k: bytes)
    requires depth < cfg.maxDepth && SkipWs(body) != [] && SkipWs(body)[0] != 0x5D
    requires ParseElements(cfg, depth + 1, SkipWs(body), []) == Done(items, k)
    ensures ParseValue(cfg, depth, [0x5B] + body) == Done(Array(items), k)
  {
  }

  lemma ObjectBranch<D(!new)>(cfg: Config<D>, depth: nat, body: bytes, fields: seq<Field<D>>, k: bytes)
    requires depth < cfg.maxDepth && SkipWs(body) != [] && SkipWs(body)[0] != 0x7D
    requires ParseMembers(cfg, depth + 1, SkipWs(body), []) == Done(fields, k)
    ensures ParseValue(cfg, depth, [0x7B] + body) == Done(Object(fields), k)
  {
  }

  lemma {:induction false} ParseArrayOf<D(!new)>(cfg: Config<D>, depth: nat, es: Elements, k: bytes)
    requires GoodElements(cfg.fmt, es) && depth + 1 + ElementsNesting(es) <= cfg.maxDepth
    ensures ParseValue(cfg, depth, Text(TArray(es), k)) == Done(Array(ElementsMeaning(cfg.fmt, es)), k)
    decreases es, 1
  {
    var body := ElementsText(es, [0x5D] + k);
    ElementsStart(cfg, es, [0x5D] + k);
    ParseElementsOf(cfg, depth + 1, es, k, []);
    SkipWsTwice(cfg, depth + 1, body);
    assert [] + ElementsMeaning(cfg.fmt, es) == ElementsMeaning(cfg.fmt, es);
    ArrayBranch(cfg, depth, body, ElementsMeaning(cfg.fmt, es), k);
  }

  lemma SkipWsTwice<D(!new)>(cfg: Config<D>, depth: nat, s: bytes)
    ensures ParseElements<D>(cfg, depth, SkipWs(s), []) == ParseElements<D>(cfg, depth, s, [])
    ensures ParseMembers<D>(cfg, depth, SkipWs(s), []) == ParseMembers<D>(cfg, depth, s, [])
  {
  }

  lemma ElementsStart<D(!new)>(cfg: Config<D>, es: Elements, k: bytes)
    requires GoodElements(cfg.fmt, es)
    ensures var s := SkipWs(ElementsText(es, k)); s != [] && s[0] != 0x5D
  {
    var k1 := match es
      case LastElement(_, _, after) => after + k
      case MoreElements(_, _, after, next) => after + ([0x2C] + ElementsText(next, k));
    SkipWsOver(es.before, Text(es.value, k1));
    TextStarts(es.value, k1);
  }

  /** After a value: optional whitespace and one punctuation byte. */
  lemma AfterValue(after: bytes, c: byte, k: bytes)
    requires Whitespace(after) && (c == 0x2C || c == 0x5D || c == 0x7D)
    ensures Follow(after + ([c] + k))
    ensures SkipWs(after + ([c] + k)) == [c] + k && ([c] + k)[1..] == k
  {
    SkipWsOver(after, [c] + k);
    if after != [] {
      assert (after + ([c] + k))[0] == after[0];
    }
  }

  /** One round of parseArray's loop. */
  lemma ElementsStep<D(!new)>(cfg: Config<D>, depth: nat, s: bytes, items: seq<Json<D>>, v: Json<D>, c: byte, k: bytes)
    requires var r := ParseValue(cfg, depth, SkipWs(s)); r.Done? && r.value == v && SkipWs(r.rest) == [c] + k
    ensures c == 0x2C ==> ParseElements(cfg, depth, s, items) == ParseElements(cfg, depth, k, items + [v])
    ensures c == 0x5D ==> ParseElements(cfg, depth, s, items) == Done(items + [v], k)
  {
  }

  lemma {:induction false} ParseElementOf<D(!new)>(
    cfg: Config<D>, depth: nat, before: bytes, t: Tree, after: bytes, c: byte, k: bytes)
    requires Whitespace(before) && Good(cfg.fmt, t) && Whitespace(after)
    requires depth + TreeNesting(t) <= cfg.maxDepth && (c == 0x2C || c == 0x5D)
    ensures var r := ParseValue(cfg, depth, SkipWs(before + Text(t, after + ([c] + k))));
      r.Done? && r.value == Meaning(cfg.fmt, t) && SkipWs(r.rest) == [c] + k
    decreases t, 1
  {
    var k1 := after + ([c] + k);
    AfterValue(after, c, k);
    SkipWsOver(before, Text(t, k1));
    TextStarts(t, k1);
    ParseValueOf(cfg, depth, t, k1);
  }

  lemma {:induction false} ParseElementsOf<D(!new)>(
    cfg: Config<D>, depth: nat, es: Elements, k: bytes, items: seq<Json<D>>)
    requires GoodElements(cfg.fmt, es) && depth + ElementsNesting(es) <= cfg.maxDepth
    ensures ParseElements(cfg, depth, ElementsText(es, [0x5D] + k), items)
         == Done(items + ElementsMeaning(cfg.fmt, es), k)
    decreases es, 0
  {
    var v := Meaning(cfg.fmt, es.value);
    var s := ElementsText(es, [0x5D] + k);
    match es {
      case LastElement(before, t, after) =>
        ParseElementOf(cfg, depth, before, t, after, 0x5D, k);
        ElementsStep(cfg, depth, s, items, v, 0x5D, k);
        assert ElementsMeaning(cfg.fmt, es) == [v];
      case MoreElements(before, t, after, next) =>
        var body := ElementsText(next, [0x5D] + k);
        assert ParseElements(cfg, depth, s, items) == ParseElements(cfg, depth, body, items + [v]) by {
          ParseElementOf(cfg, depth, before, t, after, 0x2C, body);
          ElementsStep(cfg, depth, s, items, v, 0x2C, body);
        }
        ParseElementsOf(cfg, depth, next, k, items + [v]);
        PushThenRest(items, v, ElementsMeaning(cfg.fmt, next));
    }
  }

  lemma ParseHeadOf(h: Head, k: bytes)
    requires GoodHead(h) && k != [] && !IsWhitespace(k[0])
    ensures ParseHead(HeadText(h, k)) == Done(PiecesValue(h.key), k)
  {
    var k2 := h.afterColon + k;
    var k1 := h.afterKey + ([0x3A] + k2);
    SkipWsOver(h.before, StringText(h.key, k1));
    StringAcceptedIffRunsValid(h.key, k1);
    SkipWsOver(h.afterKey, [0x3A] + k2);
    assert ([0x3A] + k2)[1..] == k2;
    SkipWsOver(h.afterColon, k);
  }

  lemma MembersStart<D(!new)>(cfg: Config<D>, ms: Members, k: bytes)
    requires GoodMembers(cfg.fmt, ms)
    ensures var s := SkipWs(MembersText(ms, k)); s != [] && s[0] == 0x22
  {
    var k1 := match ms
      case LastMember(_, _, after) => after + k
      case MoreMembers(_, _, after, next) => after + ([0x2C] + MembersText(next, k));
    var k2 := ms.head.afterKey + ([0x3A] + (ms.head.afterColon + Text(ms.value, k1)));
    SkipWsOver(ms.head.before, StringText(ms.head.key, k2));
  }

  lemma {:induction false} ParseObjectOf<D(!new)>(cfg: Config<D>, depth: nat, ms: Members, k: bytes)
    requires GoodMembers(cfg.fmt, ms) && depth + 1 + MembersNesting(ms) <= cfg.maxDepth
    ensures ParseValue(cfg, depth, Text(TObject(ms), k)) == Done(Object(MembersMeaning(cfg.fmt, ms)), k)
    decreases ms, 1
  {
    ParseMembersOf(cfg, depth + 1, ms, k, []);
    assert [] + MembersMeaning(cfg.fmt, ms) == MembersMeaning(cfg.fmt, ms);
    ObjectFrom(cfg, depth, ms, k);
  }

  lemma ObjectFrom<D(!new)>(cfg: Config<D>, depth: nat, ms: Members, k: bytes)
    requires GoodMembers(cfg.fmt, ms) && depth < cfg.maxDepth
    requires ParseMembers<D>(cfg, depth + 1, MembersText(ms, [0x7D] + k), []) == Done(MembersMeaning(cfg.fmt, ms), k)
    ensures ParseValue(cfg, depth, Text(TObject(ms), k)) == Done(Object(MembersMeaning(cfg.fmt, ms)), k)
  {
    var body := MembersText(ms, [0x7D] + k);
    MembersStart(cfg, ms, [0x7D] + k);
    SkipWsTwice(cfg, depth + 1, body);
    ObjectBranch(cfg, depth, body, MembersMeaning(cfg.fmt, ms), k);
  }

  /** One round of parseObject's loop. */
  lemma MembersStep<D(!new)>(
    cfg: Config<D>, depth: nat, s: bytes, fields: seq<Field<D>>, f: Field<D>, c: byte, k: bytes)
    requires var h := ParseHead(s);
      h.Done? && h.value == f.key
      && var r := ParseValue(cfg, depth, h.rest); r.Done? && r.value == f.value && SkipWs(r.rest) == [c] + k
    ensures c == 0x2C ==> ParseMembers(cfg, depth, s, fields) == ParseMembers(cfg, depth, k, fields + [f])
    ensures c == 0x7D ==> ParseMembers(cfg, depth, s, fields) == Done(fields + [f], k)
  {
  }

  lemma {:induction false} ParseMemberOf<D(!new)>(
    cfg: Config<D>, depth: nat, h: Head, t: Tree, after: bytes, c: byte, k: bytes)
    requires GoodHead(h) && Good(cfg.fmt, t) && Whitespace(after)
    requires depth + TreeNesting(t) <= cfg.maxDepth && (c == 0x2C || c == 0x7D)
    ensures var s := HeadText(h, Text(t, after + ([c] + k)));
      && var p := ParseHead(s);
      && p.Done? && p.value == PiecesValue(h.key)
      && var r := ParseValue(cfg, depth, p.rest);
      && r.Done? && r.value == Meaning(cfg.fmt, t) && SkipWs(r.rest) == [c] + k
    decreases t, 1
  {
    var k1 := after + ([c] + k);
    AfterValue(after, c, k);
    TextStarts(t, k1);
    ParseHeadOf(h, Text(t, k1));
    ParseValueOf(cfg, depth, t, k1);
  }

  lemma {:induction false} ParseMembersOf<D(!new)>(
    cfg: Config<D>, depth: nat, ms: Members, k: bytes, fields: seq<Field<D>>)
    requires GoodMembers(cfg.fmt, ms) && depth + MembersNesting(ms) <= cfg.maxDepth
    ensures ParseMembers(cfg, depth, MembersText(ms, [0x7D] + k), fields)
         == Done(fields + MembersMeaning(cfg.fmt, ms), k)
    decreases ms, 0
  {
    var field := Field(PiecesValue(ms.head.key), Meaning(cfg.fmt, ms.value));
    var s := MembersText(ms, [0x7D] + k);
    match ms {
      case LastMember(h, t, after) =>
        ParseMemberOf(cfg, depth, h, t, after, 0x7D, k);
        MembersStep(cfg, depth, s, fields, field, 0x7D, k);
        assert MembersMeaning(cfg.fmt, ms) == [field];
      case MoreMembers(h, t, after, next) =>
        var body := MembersText(next, [0x7D] + k);
        assert ParseMembers(cfg, depth, s, fields) == ParseMembers(cfg, depth, body, fields + [field]) by {
          ParseMemberOf(cfg, depth, h, t, after, 0x2C, body);
          MembersStep(cfg, depth, s, fields, field, 0x2C, body);
        }
        ParseMembersOf(cfg, depth, next, k, fields + [field]);
        PushThenRest(fields, field, MembersMeaning(cfg.fmt, next));
    }
  }

  /** A text of the grammar within the depth bound is accepted with the value it spells. */
  lemma GrammarAccepted<D(!new)>(cfg: Config<D>, text: bytes, v: Json<D>)
    requires Spells(cfg.fmt, cfg.maxDepth, text, v)
    ensures Parse(cfg, text) == Some(v)
  {
    var before, t, after :| SpelledBy(cfg.fmt, cfg.maxDepth, text, v, before, t, after);
    SkipWsOver(before, Text(t, after));
    TextStarts(t, after);
    ParseValueOf(cfg, 0, t, after);
    assert after + [] == after;
    SkipWsOver(after, []);
  }
}
