/** Text written in front of `a` and then followed by `b` is text written in front of `a + b`. */
module JsonTextLemmas {
  import opened Bytes
  import opened JsonGrammar

  lemma PieceTextThen(p: Piece, a: bytes, b: bytes)
    ensures PieceText(p, a) + b == PieceText(p, a + b)
  {
  }

  lemma {:induction false} PiecesTextThen(ps: seq<Piece>, a: bytes, b: bytes)
    ensures PiecesText(ps, a) + b == PiecesText(ps, a + b)
  {
    if ps != [] {
      PiecesTextThen(ps[1..], a, b);
      PieceTextThen(ps[0], PiecesText(ps[1..], a), b);
    }
  }

  lemma StringTextThen(ps: seq<Piece>, a: bytes, b: bytes)
    ensures StringText(ps, a) + b == StringText(ps, a + b)
  {
    PiecesTextThen(ps, [0x22] + a, b);
    Associate([0x22], a, b);
  }

  lemma HeadTextThen(h: Head, a: bytes, b: bytes)
    ensures HeadText(h, a) + b == HeadText(h, a + b)
  {
    var k := h.afterKey + ([0x3A] + (h.afterColon + a));
    StringTextThen(h.key, k, b);
    assert k + b == h.afterKey + ([0x3A] + (h.afterColon + (a + b)));
    Associate(h.before, StringText(h.key, k), b);
  }

  lemma {:induction false} TextThen(t: Tree, a: bytes, b: bytes)
    ensures Text(t, a) + b == Text(t, a + b)
  {
    match t
    case TString(ps) => StringTextThen(ps, a, b);
    case TArray(es) =>
      ElementsTextThen(es, [0x5D] + a, b);
      Associate([0x5D], a, b);
    case TObject(ms) =>
      MembersTextThen(ms, [0x7D] + a, b);
      Associate([0x7D], a, b);
    case _ =>
  }

  lemma {:induction false} ElementsTextThen(es: Elements, a: bytes, b: bytes)
    ensures ElementsText(es, a) + b == ElementsText(es, a + b)
  {
    var k := if es.LastElement? then a else [0x2C] + ElementsText(es.next, a);
    var k' := if es.LastElement? then a + b else [0x2C] + ElementsText(es.next, a + b);
    if es.MoreElements? {
      ElementsTextThen(es.next, a, b);
      Associate([0x2C], ElementsText(es.next, a), b);
    }
    assert k + b == k';
    Associate(es.after, k, b);
    TextThen(es.value, es.after + k, b);
    Associate(es.before, Text(es.value, es.after + k), b);
  }

  lemma {:induction false} MembersTextThen(ms: Members, a: bytes, b: bytes)
    ensures MembersText(ms, a) + b == MembersText(ms, a + b)
  {
    var k := if ms.LastMember? then a else [0x2C] + MembersText(ms.next, a);
    if ms.MoreMembers? {
      MembersTextThen(ms.next, a, b);
      Associate([0x2C], MembersText(ms.next, a), b);
    }
    Associate(ms.after, k, b);
    TextThen(ms.value, ms.after + k, b);
    HeadTextThen(ms.head, Text(ms.value, ms.after + k), b);
  }
}

/** The recursive writer, appending to a caller's string. */
module JsonWriter {
  import opened Bytes
  import opened JsonValues
  import opened JsonGrammar
  import opened JsonParsing
  import opened JsonWriting
  import opened JsonTextLemmas
  import Utf8

  /** The std::string a writer appends to. */
  class Output {
    var text: bytes

    constructor ()
      ensures text == []
    {
      text := [];
    }
  }

  // ----- Strings -----

  method EscapeByte(c: byte, out: Output)
    modifies out
    ensures out.text == old(out.text) + PieceText(CanonPiece(c), [])
  {
    if c == 0x22 {
      out.text := out.text + [0x5C, 0x22];
    } else if c == 0x5C {
      out.text := out.text + [0x5C, 0x5C];
    } else if c == 0x08 {
      out.text := out.text + [0x5C, 0x62];
    } else if c == 0x0C {
      out.text := out.text + [0x5C, 0x66];
    } else if c == 0x0A {
      out.text := out.text + [0x5C, 0x6E];
    } else if c == 0x0D {
      out.text := out.text + [0x5C, 0x72];
    } else if c == 0x09 {
      out.text := out.text + [0x5C, 0x74];
    } else if c < 0x20 {
      out.text := out.text + [0x5C, 0x75, 0x30, 0x30];
      out.text := out.text + [HexChar(c / 16)];
      out.text := out.text + [HexChar(c % 16)];
    } else {
      out.text := out.text + [c];
    }
  }

  method WriteString(text: bytes, out: Output) returns (ok: bool)
    modifies out
    ensures ok == Utf8.Octets(text)
    ensures out.text == old(out.text) + if ok then StringText(CanonPieces(text), []) else []
  {
    ok := Utf8.IsValidUtf8(text);
    if !ok {
      return;
    }
    ghost var quote: bytes := [0x22];
    ghost var target := out.text + StringText(CanonPieces(text), []);
    StringOpens(out.text, text);
    out.text := out.text + [0x22];
    var i := 0;
    while i < |text|
      invariant 0 <= i <= |text|
      invariant out.text + PiecesText(CanonPieces(text[i..]), quote) == target
    {
      ghost var before := out.text;
      EscapeByte(text[i], out);
      PieceAppended(before, text, i, quote);
      i := i + 1;
    }
    out.text := out.text + [0x22];
  }

  lemma StringOpens(before: bytes, text: bytes)
    ensures before + [0x22] + PiecesText(CanonPieces(text[0..]), [0x22]) == before + StringText(CanonPieces(text), [])
  {
    var quote: bytes := [0x22];
    assert text[0..] == text && quote + [] == quote;
  }

  lemma PieceAppended(before: bytes, text: bytes, i: nat, k: bytes)
    requires i < |text|
    ensures before + PieceText(CanonPiece(text[i]), []) + PiecesText(CanonPieces(text[i + 1..]), k)
         == before + PiecesText(CanonPieces(text[i..]), k)
  {
    var p := CanonPiece(text[i]);
    var rest := PiecesText(CanonPieces(text[i + 1..]), k);
    assert text[i..][1..] == text[i + 1..];
    assert CanonPieces(text[i..])[1..] == CanonPieces(text[i + 1..]);
    PieceTextThen(p, [], rest);
    assert [] + rest == rest;
    Associate(before, PieceText(p, []), rest);
  }

  // ----- Numbers -----

  /** std::string_view::find_first_of(".eE") finds something. */
  predicate HasFractionOrExponent(s: bytes) { exists i :: 0 <= i < |s| && (s[i] == 0x2E || s[i] == 0x65 || s[i] == 0x45) }

  lemma FloatingSpelling(n: Number)
    requires GoodNumber(n)
    ensures HasFractionOrExponent(NumberText(n)) <==> !IntegerSpelling(n)
  {
    var s := NumberText(n);
    var m := |MinusText(n.minus)| + |n.digits|;
    if n.frac.Frac? {
      assert s[m] == 0x2E;
    } else if n.exp.Exp? {
      assert s[m] == n.exp.letter;
    } else {
      assert s == MinusText(n.minus) + n.digits;
      assert forall i :: 0 <= i < |s| ==> s[i] == 0x2D || IsDigit(s[i]);
    }
  }

  lemma DecoratedText(n: Number)
    requires IntegerSpelling(n)
    ensures NumberText(Decorate(n)) == NumberText(n) + [0x2E, 0x30]
  {
    assert FracText(NoFrac) + ExpText(NoExp) == [];
    assert FracText(Frac([0x30])) + ExpText(NoExp) == [0x2E, 0x30];
    assert n.digits + [] == n.digits;
    Associate(MinusText(n.minus), n.digits, [0x2E, 0x30]);
  }

  method WriteNumber<D(!new)>(fmt: DoubleFormat<D>, v: Json<D>, out: Output) returns (ok: bool)
    requires fmt.Lawful() && (v.Integer? || v.Double?)
    modifies out
    ensures ok == Printable(fmt, v)
    ensures out.text == old(out.text) + if ok then Text(Canon(fmt, v), []) else []
  {
    if v.Integer? {
      out.text := out.text + IntegerText(v.i);
      assert Text(Canon(fmt, v), []) == IntegerText(v.i);
      return true;
    }
    if !fmt.finite(v.d) {
      return false;
    }
    ghost var n := DoubleSpelling(fmt, v.d);
    FloatingSpelling(n);
    var buffer := fmt.toChars(v.d);
    out.text := out.text + buffer;
    if !HasFractionOrExponent(buffer) {
      DecoratedText(n);
      Associate(old(out.text), buffer, [0x2E, 0x30]);
      out.text := out.text + [0x2E, 0x30];
    }
    assert Text(Canon(fmt, v), []) == NumberText(Decorate(n));
    return true;
  }

  // ----- Values -----

  /** What is still to be written of an array: its remaining items, then `k`. */
  ghost function ItemsRest<D(!new)>(fmt: DoubleFormat<D>, items: seq<Json<D>>, first: bool, k: bytes): bytes {
    if items == [] then k
    else (if first then [] else [0x2C]) + Text(Canon(fmt, items[0]), ItemsRest(fmt, items[1..], false, k))
  }

  ghost function FieldsRest<D(!new)>(fmt: DoubleFormat<D>, fields: seq<Field<D>>, first: bool, k: bytes): bytes {
    if fields == [] then k
    else (if first then [] else [0x2C])
         + HeadText(CanonHead(fields[0].key),
                    Text(Canon(fmt, fields[0].value), FieldsRest(fmt, fields[1..], false, k)))
  }

  lemma {:induction false} ItemsRestIsText<D(!new)>(fmt: DoubleFormat<D>, items: seq<Json<D>>, k: bytes)
    requires items != []
    ensures ItemsRest(fmt, items, true, k) == ElementsText(CanonElements(fmt, items), k)
  {
    forall s: bytes ensures [] + s == s {
    }
    if |items| == 1 {
      assert items[1..] == [];
    } else {
      ItemsRestIsText(fmt, items[1..], k);
      assert ItemsRest(fmt, items[1..], false, k) == [0x2C] + ItemsRest(fmt, items[1..], true, k);
    }
  }

  lemma {:induction false} FieldsRestIsText<D(!new)>(fmt: DoubleFormat<D>, fields: seq<Field<D>>, k: bytes)
    requires fields != []
    ensures FieldsRest(fmt, fields, true, k) == MembersText(CanonMembers(fmt, fields), k)
  {
    forall s: bytes ensures [] + s == s {
    }
    if |fields| == 1 {
      assert fields[1..] == [];
    } else {
      FieldsRestIsText(fmt, fields[1..], k);
      assert FieldsRest(fmt, fields[1..], false, k) == [0x2C] + FieldsRest(fmt, fields[1..], true, k);
    }
  }

  lemma ArrayText<D(!new)>(fmt: DoubleFormat<D>, v: Json<D>)
    requires v.Array?
    ensures Text(Canon(fmt, v), []) == [0x5B] + ItemsRest(fmt, v.items, true, [0x5D])
  {
    var bracket: bytes := [0x5D];
    assert bracket + [] == bracket && [] + bracket == bracket;
    if v.items != [] {
      ItemsRestIsText(fmt, v.items, bracket);
    }
  }

  lemma ObjectText<D(!new)>(fmt: DoubleFormat<D>, v: Json<D>)
    requires v.Object?
    ensures Text(Canon(fmt, v), []) == [0x7B] + FieldsRest(fmt, v.fields, true, [0x7D])
  {
    var brace: bytes := [0x7D];
    assert brace + [] == brace && [] + brace == brace;
    if v.fields != [] {
      FieldsRestIsText(fmt, v.fields, brace);
    }
  }

  /** Acceptance of a value with `depth` containers already entered. */
  predicate Fits<D(!new)>(cfg: Config<D>, depth: nat, v: Json<D>) {
    (v.Array? || v.Object? ==> depth + Nesting(v) <= cfg.maxDepth) && Printable(cfg.fmt, v)
  }

  predicate AllFit<D(!new)>(cfg: Config<D>, depth: nat, items: seq<Json<D>>) {
    forall i :: 0 <= i < |items| ==> Fits(cfg, depth, items[i])
  }

  predicate FieldFits<D(!new)>(cfg: Config<D>, depth: nat, f: Field<D>) {
    Utf8.Octets(f.key) && Fits(cfg, depth, f.value)
  }

  predicate AllFieldsFit<D(!new)>(cfg: Config<D>, depth: nat, fields: seq<Field<D>>) {
    forall i :: 0 <= i < |fields| ==> FieldFits(cfg, depth, fields[i])
  }

  lemma {:induction false} ItemsFit<D(!new)>(cfg: Config<D>, depth: nat, items: seq<Json<D>>)
    requires depth <= cfg.maxDepth
    ensures (depth + ItemsNesting(items) <= cfg.maxDepth && ItemsPrintable(cfg.fmt, items))
       <==> AllFit(cfg, depth, items)
  {
    if items != [] {
      ItemsFit(cfg, depth, items[1..]);
      assert forall i :: 1 <= i < |items| ==> items[1..][i - 1] == items[i];
      assert forall i :: 0 <= i < |items| - 1 ==> items[1..][i] == items[i + 1];
    }
  }

  lemma {:induction false} FieldsFit<D(!new)>(cfg: Config<D>, depth: nat, fields: seq<Field<D>>)
    requires depth <= cfg.maxDepth
    ensures (depth + FieldsNesting(fields) <= cfg.maxDepth && FieldsPrintable(cfg.fmt, fields))
       <==> AllFieldsFit(cfg, depth, fields)
  {
    if fields != [] {
      FieldsFit(cfg, depth, fields[1..]);
      assert forall i :: 1 <= i < |fields| ==> fields[1..][i - 1] == fields[i];
      assert forall i :: 0 <= i < |fields| - 1 ==> fields[1..][i] == fields[i + 1];
    }
  }

  /** A container fits when it may be entered and all it holds fits one level down. */
  lemma ContainerFits<D(!new)>(cfg: Config<D>, depth: nat, v: Json<D>)
    ensures v.Array? ==> (Fits(cfg, depth, v) <==> depth < cfg.maxDepth && AllFit(cfg, depth + 1, v.items))
    ensures v.Object? ==> (Fits(cfg, depth, v) <==> depth < cfg.maxDepth && AllFieldsFit(cfg, depth + 1, v.fields))
  {
    if depth < cfg.maxDepth {
      if v.Array? {
        ItemsFit(cfg, depth + 1, v.items);
      } else if v.Object? {
        FieldsFit(cfg, depth + 1, v.fields);
      }
    }
  }

  lemma ItemAppended<D(!new)>(fmt: DoubleFormat<D>, before: bytes, items: seq<Json<D>>, i: nat, k: bytes)
    requires i < |items|
    ensures var comma: bytes := if i == 0 then [] else [0x2C];
      before + comma + Text(Canon(fmt, items[i]), []) + ItemsRest(fmt, items[i + 1..], false, k)
      == before + ItemsRest(fmt, items[i..], i == 0, k)
  {
    var comma: bytes := if i == 0 then [] else [0x2C];
    var t, rest := Canon(fmt, items[i]), ItemsRest(fmt, items[i + 1..], false, k);
    assert items[i..][1..] == items[i + 1..];
    TextThen(t, [], rest);
    assert [] + rest == rest;
    Associate(before + comma, Text(t, []), rest);
    Associate(before, comma, Text(t, rest));
  }

  lemma FieldAppended<D(!new)>(fmt: DoubleFormat<D>, before: bytes, fields: seq<Field<D>>, i: nat, k: bytes)
    requires i < |fields|
    ensures var comma: bytes := if i == 0 then [] else [0x2C];
      before + comma + StringText(CanonPieces(fields[i].key), []) + [0x3A]
      + Text(Canon(fmt, fields[i].value), []) + FieldsRest(fmt, fields[i + 1..], false, k)
      == before + FieldsRest(fmt, fields[i..], i == 0, k)
  {
    var comma: bytes := if i == 0 then [] else [0x2C];
    var key, t := CanonPieces(fields[i].key), Canon(fmt, fields[i].value);
    var rest := FieldsRest(fmt, fields[i + 1..], false, k);
    assert fields[i..][1..] == fields[i + 1..];
    TextThen(t, [], rest);
    assert [] + rest == rest;
    var after := [0x3A] + Text(t, rest);
    StringTextThen(key, [], after);
    assert [] + after == after;
    assert HeadText(CanonHead(fields[i].key), Text(t, rest)) == StringText(key, after) by {
      assert [] + Text(t, rest) == Text(t, rest);
      assert [] + StringText(key, after) == StringText(key, after);
    }
    Associate(before + comma + StringText(key, []) + [0x3A], Text(t, []), rest);
    Associate(before + comma + StringText(key, []), [0x3A], Text(t, rest));
    Associate(before + comma, StringText(key, []), after);
    Associate(before, comma, StringText(key, after));
  }

  method WriteValue<D(!new)>(cfg: Config<D>, v: Json<D>, depth: nat, out: Output) returns (ok: bool)
    requires cfg.fmt.Lawful()
    modifies out
    ensures ok == Fits(cfg, depth, v)
    ensures ok ==> out.text == old(out.text) + Text(Canon(cfg.fmt, v), [])
    decreases v, 1
  {
    match v
    case Null => out.text := out.text + NULL; return true;
    case Bool(b) => out.text := out.text + if b then TRUE else FALSE; return true;
    case Integer(_) => ok := WriteNumber(cfg.fmt, v, out);
    case Double(_) => ok := WriteNumber(cfg.fmt, v, out);
    case String(s) => ok := WriteString(s, out);
    case Array(items) =>
      ArrayText(cfg.fmt, v);
      ContainerFits(cfg, depth, v);
      ok := WriteArray(cfg, items, depth, out);
    case Object(fields) =>
      ObjectText(cfg.fmt, v);
      ContainerFits(cfg, depth, v);
      ok := WriteObject(cfg, fields, depth, out);
  }

  method WriteArray<D(!new)>(cfg: Config<D>, items: seq<Json<D>>, depth: nat, out: Output) returns (ok: bool)
    requires cfg.fmt.Lawful()
    modifies out
    ensures ok == (depth < cfg.maxDepth && AllFit(cfg, depth + 1, items))
    ensures ok ==> out.text == old(out.text) + ([0x5B] + ItemsRest(cfg.fmt, items, true, [0x5D]))
    decreases items, 1
  {
    if depth >= cfg.maxDepth {
      return false;
    }
    Associate(out.text, [0x5B], ItemsRest(cfg.fmt, items, true, [0x5D]));
    out.text := out.text + [0x5B];
    ok := WriteElements(cfg, items, depth + 1, out);
    if ok {
      out.text := out.text + [0x5D];
    }
  }

  /** The loop over the elements. */
  method WriteElements<D(!new)>(cfg: Config<D>, items: seq<Json<D>>, depth: nat, out: Output) returns (ok: bool)
    requires cfg.fmt.Lawful()
    modifies out
    ensures ok == AllFit(cfg, depth, items)
    ensures ok ==> out.text + [0x5D] == old(out.text) + ItemsRest(cfg.fmt, items, true, [0x5D])
    decreases items, 0
  {
    assert items[0..] == items;
    var i := 0;
    while i < |items|
      invariant 0 <= i <= |items|
      invariant forall j :: 0 <= j < i ==> Fits(cfg, depth, items[j])
      invariant out.text + ItemsRest(cfg.fmt, items[i..], i == 0, [0x5D])
             == old(out.text) + ItemsRest(cfg.fmt, items, true, [0x5D])
    {
      ItemAppended(cfg.fmt, out.text, items, i, [0x5D]);
      ok := WriteElement(cfg, items[i], i == 0, depth, out);
      if !ok {
        return;
      }
      i := i + 1;
    }
    return true;
  }

  /** One round of the array loop. */
  method WriteElement<D(!new)>(cfg: Config<D>, item: Json<D>, first: bool, depth: nat, out: Output) returns (ok: bool)
    requires cfg.fmt.Lawful()
    modifies out
    ensures ok == Fits(cfg, depth, item)
    ensures ok ==> out.text == old(out.text) + (if first then [] else [0x2C]) + Text(Canon(cfg.fmt, item), [])
    decreases item, 2
  {
    if !first {
      out.text := out.text + [0x2C];
    }
    ok := WriteValue(cfg, item, depth, out);
  }

  /** A comma if needed, the key and the colon of one member. */
  method WriteKey(key: bytes, first: bool, out: Output) returns (ok: bool)
    modifies out
    ensures ok == Utf8.Octets(key)
    ensures ok ==> out.text == old(out.text) + (if first then [] else [0x2C])
                               + StringText(CanonPieces(key), []) + [0x3A]
  {
    if !first {
      out.text := out.text + [0x2C];
    }
    ok := WriteString(key, out);
    if ok {
      out.text := out.text + [0x3A];
    }
  }

  /** One round of the object loop. */
  method WriteMember<D(!new)>(cfg: Config<D>, f: Field<D>, first: bool, depth: nat, out: Output) returns (ok: bool)
    requires cfg.fmt.Lawful()
    modifies out
    ensures ok == FieldFits(cfg, depth, f)
    ensures ok ==> out.text == old(out.text) + (if first then [] else [0x2C])
                               + StringText(CanonPieces(f.key), []) + [0x3A] + Text(Canon(cfg.fmt, f.value), [])
    decreases f, 2
  {
    ok := WriteKey(f.key, first, out);
    if ok {
      ok := WriteValue(cfg, f.value, depth, out);
    }
  }

  method WriteObject<D(!new)>(cfg: Config<D>, fields: seq<Field<D>>, depth: nat, out: Output) returns (ok: bool)
    requires cfg.fmt.Lawful()
    modifies out
    ensures ok == (depth < cfg.maxDepth && AllFieldsFit(cfg, depth + 1, fields))
    ensures ok ==> out.text == old(out.text) + ([0x7B] + FieldsRest(cfg.fmt, fields, true, [0x7D]))
    decreases fields, 1
  {
    if depth >= cfg.maxDepth {
      return false;
    }
    Associate(out.text, [0x7B], FieldsRest(cfg.fmt, fields, true, [0x7D]));
    out.text := out.text + [0x7B];
    ok := WriteMembers(cfg, fields, depth + 1, out);
    if ok {
      out.text := out.text + [0x7D];
    }
  }

  /** The loop over the members. */
  method WriteMembers<D(!new)>(cfg: Config<D>, fields: seq<Field<D>>, depth: nat, out: Output) returns (ok: bool)
    requires cfg.fmt.Lawful()
    modifies out
    ensures ok == AllFieldsFit(cfg, depth, fields)
    ensures ok ==> out.text + [0x7D] == old(out.text) + FieldsRest(cfg.fmt, fields, true, [0x7D])
    decreases fields, 0
  {
    assert fields[0..] == fields;
    var i := 0;
    while i < |fields|
      invariant 0 <= i <= |fields|
      invariant forall j :: 0 <= j < i ==> FieldFits(cfg, depth, fields[j])
      invariant out.text + FieldsRest(cfg.fmt, fields[i..], i == 0, [0x7D])
             == old(out.text) + FieldsRest(cfg.fmt, fields, true, [0x7D])
    {
      ok := WriteNext(cfg, fields, i, depth, out);
      if !ok {
        return;
      }
      i := i + 1;
    }
    return true;
  }

  /** One round of that loop, seen from the text still to come. */
  method WriteNext<D(!new)>(cfg: Config<D>, fields: seq<Field<D>>, i: nat, depth: nat, out: Output) returns (ok: bool)
    requires cfg.fmt.Lawful() && i < |fields|
    modifies out
    ensures ok == FieldFits(cfg, depth, fields[i])
    ensures ok ==> out.text + FieldsRest(cfg.fmt, fields[i + 1..], false, [0x7D])
                   == old(out.text) + FieldsRest(cfg.fmt, fields[i..], i == 0, [0x7D])
    decreases fields[i], 3
  {
    FieldAppended(cfg.fmt, out.text, fields, i, [0x7D]);
    ok := WriteMember(cfg, fields[i], i == 0, depth, out);
  }

  /** JsonWriter::write: a refused value leaves the caller's output as it was. */
  method Write<D(!new)>(cfg: Config<D>, v: Json<D>, out: Output) returns (ok: bool)
    requires cfg.fmt.Lawful()
    modifies out
    ensures ok == Written(cfg, v).Some?
    ensures out.text == if ok then Written(cfg, v).value else old(out.text)
  {
    var encoded := new Output();
    ok := WriteValue(cfg, v, 0, encoded);
    if ok {
      out.text := encoded.text;
    }
  }
}
