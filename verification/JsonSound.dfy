/** Nothing but the grammar is accepted: every successful parse is explained by a syntax tree. */
module JsonSound {
  import opened Bytes
  import opened JsonValues
  import opened JsonGrammar
  import opened JsonParsing
  import opened JsonComplete
  import Utf8

  lemma {:induction false} SkippedWs(s: bytes) returns (ws: bytes)
    ensures Whitespace(ws) && s == ws + SkipWs(s)
  {
    if s != [] && IsWhitespace(s[0]) {
      var rest := SkippedWs(s[1..]);
      ws := [s[0]] + rest;
      assert s == [s[0]] + s[1..];
    } else {
      ws := [];
    }
  }

  // ----- Numbers -----

  lemma ReadIntSound(s: bytes)
    requires ReadInt(s).Done?
    ensures var r := ReadInt(s); GoodInt(r.value) && s == r.value + r.rest
  {
    if s[0] != 0x30 {
      assert s[..LeadingDigits(s)][0] == s[0];
    }
  }

  lemma ReadFracSound(s: bytes)
    requires ReadFrac(s).Done?
    ensures var r := ReadFrac(s); (r.value.Frac? ==> GoodDigits(r.value.digits)) && s == FracText(r.value) + r.rest
  {
    if ReadFrac(s).value.Frac? {
      assert s == [s[0]] + s[1..];
    }
  }

  lemma SignSound(s: bytes)
    ensures var sign := ReadSign(s); s == sign + s[|sign|..] && (sign == [] || sign == [0x2B] || sign == [0x2D])
  {
  }

  lemma DigitsSound(s: bytes)
    requires ReadDigits(s).Done?
    ensures s == ReadDigits(s).value + ReadDigits(s).rest && GoodDigits(ReadDigits(s).value)
  {
  }

  lemma ExpPieces(s: bytes, s1: bytes, s2: bytes, e: Exp, rest: bytes)
    requires e.Exp? && s == [e.letter] + s1 && s1 == e.sign + s2 && s2 == e.digits + rest
    ensures s == ExpText(e) + rest
  {
    Associate(e.sign, e.digits, rest);
    Associate([e.letter], e.sign + e.digits, rest);
  }

  lemma ReadExpSound(s: bytes)
    requires ReadExp(s).Done?
    ensures var r := ReadExp(s);
      && (r.value.Exp? ==> (r.value.letter == 0x65 || r.value.letter == 0x45) && GoodDigits(r.value.digits)
                           && (r.value.sign == [] || r.value.sign == [0x2B] || r.value.sign == [0x2D]))
      && s == ExpText(r.value) + r.rest
  {
    if s != [] && (s[0] == 0x65 || s[0] == 0x45) {
      var s1 := s[1..];
      var sign := ReadSign(s1);
      var s2 := s1[|sign|..];
      assert s == [s[0]] + s1;
      SignSound(s1);
      DigitsSound(s2);
      ExpPieces(s, s1, s2, ReadExp(s).value, ReadExp(s).rest);
    }
  }

  lemma ReadNumberSound(s: bytes)
    requires ReadNumber(s).Done?
    ensures var r := ReadNumber(s); GoodNumber(r.value) && s == NumberText(r.value) + r.rest
  {
    var n, rest := ReadNumber(s).value, ReadNumber(s).rest;
    var s0 := if n.minus then s[1..] else s;
    assert s == MinusText(n.minus) + s0;
    ReadIntSound(s0);
    ReadFracSound(ReadInt(s0).rest);
    ReadExpSound(ReadFrac(ReadInt(s0).rest).rest);
    NumberTextThen(n, rest);
  }

  // ----- Strings -----

  lemma ParseUnicodeSound(s: bytes) returns (p: Piece)
    requires ParseUnicode(s).Done?
    ensures GoodPiece(p) && !p.Raw? && PieceValue(p) == ParseUnicode(s).value
    ensures PieceText(p, ParseUnicode(s).rest) == [0x5C, 0x75] + s
  {
    var h := s[..4];
    assert s == h + s[4..];
    if HighSurrogate(Hex4(h)) {
      var s1 := s[4..];
      var l := s1[2..][..4];
      assert s1 == [0x5C, 0x75] + s1[2..];
      assert s1[2..] == l + s1[2..][4..];
      p := Pair(h, l);
    } else {
      p := Unit(h);
    }
  }

  lemma ParseEscapeSound(s: bytes) returns (p: Piece)
    requires ParseEscape(s).Done?
    ensures GoodPiece(p) && !p.Raw? && PieceValue(p) == ParseEscape(s).value
    ensures PieceText(p, ParseEscape(s).rest) == [0x5C] + s
  {
    assert s == [s[0]] + s[1..];
    if s[0] == 0x75 {
      p := ParseUnicodeSound(s[1..]);
    } else {
      p := Short(s[0]);
    }
  }

  /** One round of parseString's loop reads one piece. */
  lemma ScanStep(s: bytes, text: bytes) returns (p: Piece, rest: bytes)
    requires ScanString(s, text).Done? && s[0] != 0x22
    ensures GoodPiece(p) && s == PieceText(p, rest) && |rest| < |s|
    ensures ScanString(s, text) == ScanString(rest, text + PieceValue(p))
  {
    assert s == [s[0]] + s[1..];
    if s[0] == 0x5C {
      p := ParseEscapeSound(s[1..]);
      rest := ParseEscape(s[1..]).rest;
    } else {
      p, rest := Raw(s[0]), s[1..];
    }
  }

  lemma {:induction false} ScanSound(s: bytes, text: bytes) returns (ps: seq<Piece>)
    requires ScanString(s, text).Done?
    ensures GoodPieces(ps) && Utf8.Octets(ScanString(s, text).value)
    ensures s == PiecesText(ps, [0x22] + ScanString(s, text).rest)
    ensures ScanString(s, text).value == text + PiecesValue(ps)
    decreases |s|
  {
    if s[0] == 0x22 {
      ps := [];
      assert s == [s[0]] + s[1..];
      assert text + [] == text;
    } else {
      var p, rest := ScanStep(s, text);
      var tail := ScanSound(rest, text + PieceValue(p));
      ps := [p] + tail;
      assert ps[1..] == tail;
      Associate(text, PieceValue(p), PiecesValue(tail));
    }
  }

  lemma ParseStringSound(s: bytes) returns (ps: seq<Piece>)
    requires ParseString(s).Done?
    ensures GoodString(ps) && PiecesValue(ps) == ParseString(s).value
    ensures s == StringText(ps, ParseString(s).rest)
  {
    ps := ScanSound(s[1..], []);
    assert [] + PiecesValue(ps) == PiecesValue(ps);
    DeferredCheck(ps);
    assert s == [0x22] + s[1..];
  }

  // ----- Values -----

  /** `t` explains the parse of `s`: it is well formed, within the bound, and spells what was consumed. */
  ghost predicate Explains<D(!new)>(cfg: Config<D>, depth: nat, s: bytes, t: Tree, v: Json<D>, rest: bytes) {
    && Good(cfg.fmt, t) && depth + TreeNesting(t) <= Max(cfg.maxDepth, depth)
    && s == Text(t, rest) && v == Meaning(cfg.fmt, t)
  }

  lemma LiteralSound<D(!new)>(cfg: Config<D>, depth: nat, s: bytes) returns (t: Tree)
    requires s != [] && (s[0] == 0x6E || s[0] == 0x74 || s[0] == 0x66) && ParseValue(cfg, depth, s).Done?
    ensures Explains(cfg, depth, s, t, ParseValue(cfg, depth, s).value, ParseValue(cfg, depth, s).rest)
  {
    var word := if s[0] == 0x6E then NULL else if s[0] == 0x74 then TRUE else FALSE;
    t := if s[0] == 0x6E then TNull else if s[0] == 0x74 then TTrue else TFalse;
    assert s == word + s[|word|..];
  }

  lemma NumberSound<D(!new)>(cfg: Config<D>, depth: nat, s: bytes) returns (t: Tree)
    requires ParseNumber(cfg.fmt, s).Done?
    ensures Explains(cfg, depth, s, t, ParseNumber(cfg.fmt, s).value, ParseNumber(cfg.fmt, s).rest)
  {
    ReadNumberSound(s);
    t := TNumber(ReadNumber(s).value);
  }

  lemma StringSound<D(!new)>(cfg: Config<D>, depth: nat, s: bytes) returns (t: Tree)
    requires ParseString(s).Done?
    ensures Explains(cfg, depth, s, t, String(ParseString(s).value), ParseString(s).rest)
  {
    var ps := ParseStringSound(s);
    t := TString(ps);
  }

  lemma {:induction false} ParseValueSound<D(!new)>(cfg: Config<D>, depth: nat, s: bytes) returns (t: Tree)
    requires ParseValue(cfg, depth, s).Done?
    ensures Explains(cfg, depth, s, t, ParseValue(cfg, depth, s).value, ParseValue(cfg, depth, s).rest)
    decreases |s|, 0
  {
    assert s == [s[0]] + s[1..];
    if s[0] == 0x6E || s[0] == 0x74 || s[0] == 0x66 {
      t := LiteralSound(cfg, depth, s);
    } else if s[0] == 0x22 {
      t := StringSound(cfg, depth, s);
    } else if s[0] == 0x5B {
      t := ParseArraySound(cfg, depth, s[1..]);
    } else if s[0] == 0x7B {
      t := ParseObjectSound(cfg, depth, s[1..]);
    } else {
      t := NumberSound(cfg, depth, s);
    }
  }

  lemma {:induction false} ParseArraySound<D(!new)>(cfg: Config<D>, depth: nat, s: bytes) returns (t: Tree)
    requires ParseArray(cfg, depth, s).Done?
    ensures Explains(cfg, depth, [0x5B] + s, t, ParseArray(cfg, depth, s).value, ParseArray(cfg, depth, s).rest)
    decreases |s|, 2
  {
    var s1 := SkipWs(s);
    if s1 != [] && s1[0] == 0x5D {
      var ws := SkippedWs(s);
      t := TEmptyArray(ws);
      assert s1 == [0x5D] + s1[1..];
    } else {
      SkipWsTwice(cfg, depth + 1, s);
      var es := ParseElementsSound(cfg, depth + 1, s, []);
      assert [] + ElementsMeaning(cfg.fmt, es) == ElementsMeaning(cfg.fmt, es);
      t := TArray(es);
    }
  }

  lemma {:induction false} ParseElementsSound<D(!new)>(cfg: Config<D>, depth: nat, s: bytes, items: seq<Json<D>>)
    returns (es: Elements)
    requires ParseElements(cfg, depth, s, items).Done? && depth <= cfg.maxDepth
    ensures GoodElements(cfg.fmt, es) && depth + ElementsNesting(es) <= cfg.maxDepth
    ensures var r := ParseElements(cfg, depth, s, items);
      s == ElementsText(es, [0x5D] + r.rest) && r.value == items + ElementsMeaning(cfg.fmt, es)
    decreases |s|, 1
  {
    var before := SkippedWs(s);
    var r := ParseValue(cfg, depth, SkipWs(s));
    var t := ParseValueSound(cfg, depth, SkipWs(s));
    var after := SkippedWs(r.rest);
    var s2 := SkipWs(r.rest);
    assert s2 == [s2[0]] + s2[1..];
    if s2[0] == 0x2C {
      var next := ParseElementsSound(cfg, depth, s2[1..], items + [r.value]);
      es := MoreElements(before, t, after, next);
      PushThenRest(items, r.value, ElementsMeaning(cfg.fmt, next));
    } else {
      es := LastElement(before, t, after);
      assert ElementsMeaning(cfg.fmt, es) == [r.value];
    }
  }

  lemma ObjectExplained<D(!new)>(cfg: Config<D>, depth: nat, s: bytes, ms: Members, fields: seq<Field<D>>, rest: bytes)
    requires GoodMembers(cfg.fmt, ms) && depth + 1 + MembersNesting(ms) <= cfg.maxDepth
    requires s == MembersText(ms, [0x7D] + rest) && fields == [] + MembersMeaning(cfg.fmt, ms)
    ensures Explains(cfg, depth, [0x7B] + s, TObject(ms), Object(fields), rest)
  {
    assert [] + MembersMeaning(cfg.fmt, ms) == MembersMeaning(cfg.fmt, ms);
  }

  lemma {:induction false} ParseObjectSound<D(!new)>(cfg: Config<D>, depth: nat, s: bytes) returns (t: Tree)
    requires ParseObject(cfg, depth, s).Done?
    ensures Explains(cfg, depth, [0x7B] + s, t, ParseObject(cfg, depth, s).value, ParseObject(cfg, depth, s).rest)
    decreases |s|, 2
  {
    var s1 := SkipWs(s);
    if s1 != [] && s1[0] == 0x7D {
      var ws := SkippedWs(s);
      t := TEmptyObject(ws);
      assert s1 == [0x7D] + s1[1..];
    } else {
      SkipWsTwice(cfg, depth + 1, s);
      var ms := ParseMembersSound(cfg, depth + 1, s, []);
      var r := ParseMembers(cfg, depth + 1, s, []);
      ObjectExplained(cfg, depth, s, ms, r.value, r.rest);
      t := TObject(ms);
    }
  }

  lemma ParseHeadSound(s: bytes) returns (h: Head)
    requires ParseHead(s).Done?
    ensures GoodHead(h) && PiecesValue(h.key) == ParseHead(s).value && s == HeadText(h, ParseHead(s).rest)
  {
    var before := SkippedWs(s);
    var key := ParseStringSound(SkipWs(s));
    var s1 := ParseString(SkipWs(s)).rest;
    var afterKey := SkippedWs(s1);
    var s2 := SkipWs(s1);
    assert s2 == [0x3A] + s2[1..];
    var afterColon := SkippedWs(s2[1..]);
    h := Head(before, key, afterKey, afterColon);
  }

  lemma {:induction false} ParseMembersSound<D(!new)>(cfg: Config<D>, depth: nat, s: bytes, fields: seq<Field<D>>)
    returns (ms: Members)
    requires ParseMembers(cfg, depth, s, fields).Done? && depth <= cfg.maxDepth
    ensures GoodMembers(cfg.fmt, ms) && depth + MembersNesting(ms) <= cfg.maxDepth
    ensures var r := ParseMembers(cfg, depth, s, fields);
      s == MembersText(ms, [0x7D] + r.rest) && r.value == fields + MembersMeaning(cfg.fmt, ms)
    decreases |s|, 1
  {
    var h := ParseHeadSound(s);
    var s1 := ParseHead(s).rest;
    var r := ParseValue(cfg, depth, s1);
    var t := ParseValueSound(cfg, depth, s1);
    var after := SkippedWs(r.rest);
    var s3 := SkipWs(r.rest);
    assert s3 == [s3[0]] + s3[1..];
    var field := Field(ParseHead(s).value, r.value);
    if s3[0] == 0x2C {
      var next := ParseMembersSound(cfg, depth, s3[1..], fields + [field]);
      ms := MoreMembers(h, t, after, next);
      PushThenRest(fields, field, MembersMeaning(cfg.fmt, next));
    } else {
      ms := LastMember(h, t, after);
      assert MembersMeaning(cfg.fmt, ms) == [field];
    }
  }

  /**
   * The parser is the grammar: a text is accepted with value `v` exactly when
   * it spells `v` within the depth bound.
   */
  lemma ParserIsGrammar<D(!new)>(cfg: Config<D>, text: bytes, v: Json<D>)
    ensures Parse(cfg, text) == Some(v) <==> Spells(cfg.fmt, cfg.maxDepth, text, v)
  {
    if Parse(cfg, text) == Some(v) {
      var before := SkippedWs(text);
      var t := ParseValueSound(cfg, 0, SkipWs(text));
      var rest := ParseValue(cfg, 0, SkipWs(text)).rest;
      var after := SkippedWs(rest);
      assert rest == after;
      assert SpelledBy(cfg.fmt, cfg.maxDepth, text, v, before, t, after);
    }
    if Spells(cfg.fmt, cfg.maxDepth, text, v) {
      GrammarAccepted(cfg, text, v);
    }
  }
}
