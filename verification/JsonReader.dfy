/** One parse, one cursor: the recursive-descent reader itself. */
module JsonReader {
  import opened Bytes
  import opened JsonValues
  import opened JsonGrammar
  import opened JsonParsing
  import JsonSound
  import Utf8

  /** What follows an element or a member: another one, the closing bracket, or neither. */
  datatype Next = Bad | More | Last

  /** What a token denotes: first try int64, then double. */
  method Interpret<D(!new)>(
    fmt: DoubleFormat<D>, token: bytes, minus: bool, digits: bytes, floating: bool, ghost n: Number)
    returns (v: Option<Json<D>>)
    requires AllDigits(digits) && n.minus == minus && n.digits == digits
    requires token == NumberText(n) && floating == !IntegerSpelling(n)
    ensures v == NumberMeaning(fmt, n)
  {
    if !floating {
      var integer := ReadInteger(minus, digits);
      if integer.Some? {
        return Some(Integer(integer.value));
      }
    }
    var number := fmt.fromChars(token);
    if number.None? || !fmt.finite(number.value) {
      return None;
    }
    return Some(Double(number.value));
  }

  /** The consumed part of a number is the text of the number that was read. */
  lemma TokenIs(input: bytes, start: nat, pos: nat, n: Number)
    requires start <= pos <= |input| && ReadNumber(input[start..]) == Done(n, input[pos..])
    ensures input[start..pos] == NumberText(n)
  {
    JsonSound.ReadNumberSound(input[start..]);
    assert input[start..pos] == input[start..][..pos - start];
  }

  class Reader<D(!new)> {
    const input: bytes
    const cfg: Config<D>
    var pos: nat

    constructor (input: bytes, cfg: Config<D>)
      ensures this.input == input && this.cfg == cfg && pos == 0
    {
      this.input, this.cfg, pos := input, cfg, 0;
    }

    ghost predicate InBounds()
      reads this
    {
      pos <= |input|
    }

    ghost function Unread(): bytes
      requires InBounds()
      reads this
    {
      input[pos..]
    }

    /** The cursor stands where `r` says it does, with the outcome `r` says. */
    ghost predicate Reached<T>(r: Parsed<T>, ok: bool, out: T)
      reads this
    {
      InBounds() && ok == r.Done? && (ok ==> out == r.value && Unread() == r.rest)
    }

    method SkipWhitespace()
      requires InBounds()
      modifies `pos
      ensures InBounds() && pos >= old(pos) && Unread() == SkipWs(old(Unread()))
    {
      while pos < |input|
        invariant old(pos) <= pos && InBounds()
        invariant SkipWs(Unread()) == SkipWs(old(Unread()))
      {
        var c := input[pos];
        if c != 0x20 && c != 0x09 && c != 0x0A && c != 0x0D {
          return;
        }
        assert Unread()[1..] == input[pos + 1..];
        pos := pos + 1;
      }
    }

    method Consume(literal: bytes) returns (ok: bool)
      requires InBounds()
      modifies `pos
      ensures InBounds() && ok == (literal <= old(Unread()))
      ensures pos == if ok then old(pos) + |literal| else old(pos)
    {
      ghost var s := Unread();
      if pos + |literal| > |input| || input[pos..pos + |literal|] != literal {
        assert pos + |literal| <= |input| ==> s[..|literal|] == input[pos..pos + |literal|];
        return false;
      }
      assert s[..|literal|] == literal;
      pos := pos + |literal|;
      return true;
    }

    // ----- Numbers -----

    method SkipDigits()
      requires InBounds()
      modifies `pos
      ensures InBounds() && pos == old(pos) + LeadingDigits(old(Unread()))
    {
      while pos < |input| && IsDigit(input[pos])
        invariant InBounds()
        invariant pos + LeadingDigits(Unread()) == old(pos) + LeadingDigits(old(Unread()))
      {
        assert Unread()[1..] == input[pos + 1..];
        pos := pos + 1;
      }
    }

    /** The integer part; `start` is where it begins. */
    method ScanInt() returns (ok: bool)
      requires InBounds()
      modifies `pos
      ensures InBounds() && pos >= old(pos) && Reached(ReadInt(old(Unread())), ok, input[old(pos)..pos])
    {
      ghost var s, p0 := Unread(), pos;
      if pos >= |input| {
        return false;
      }
      if input[pos] == 0x30 {
        pos := pos + 1;
        if pos < |input| && IsDigit(input[pos]) {
          return false;
        }
        assert input[p0..pos] == [0x30] && s[1..] == input[pos..];
      } else if 0x31 <= input[pos] <= 0x39 {
        SkipDigits();
        assert input[p0..pos] == s[..pos - p0] && input[pos..] == s[pos - p0..];
      } else {
        return false;
      }
      return true;
    }

    /** At least one digit. */
    method ScanDigits() returns (ok: bool)
      requires InBounds()
      modifies `pos
      ensures InBounds() && pos >= old(pos) && Reached(ReadDigits(old(Unread())), ok, input[old(pos)..pos])
    {
      ghost var s, p0 := Unread(), pos;
      if pos >= |input| || !IsDigit(input[pos]) {
        return false;
      }
      SkipDigits();
      assert input[p0..pos] == s[..pos - p0] && input[pos..] == s[pos - p0..];
      return true;
    }

    method ScanFrac() returns (ok: bool, found: bool, ghost frac: Frac)
      requires InBounds()
      modifies `pos
      ensures pos >= old(pos) && Reached(ReadFrac(old(Unread())), ok, frac)
      ensures ok ==> found == frac.Frac?
    {
      ghost var s := Unread();
      found, frac := false, NoFrac;
      if pos < |input| && input[pos] == 0x2E {
        found := true;
        pos := pos + 1;
        assert Unread() == s[1..];
        ghost var p1 := pos;
        ok := ScanDigits();
        frac := Frac(input[p1..pos]);
        return;
      }
      ok := true;
    }

    method ScanExp() returns (ok: bool, found: bool, ghost exp: Exp)
      requires InBounds()
      modifies `pos
      ensures pos >= old(pos) && Reached(ReadExp(old(Unread())), ok, exp)
      ensures ok ==> found == exp.Exp?
    {
      ghost var s := Unread();
      found, exp := false, NoExp;
      if pos < |input| && (input[pos] == 0x65 || input[pos] == 0x45) {
        found := true;
        pos := pos + 1;
        ghost var s1 := s[1..];
        assert Unread() == s1;
        ghost var sign := ReadSign(s1);
        if pos < |input| && (input[pos] == 0x2B || input[pos] == 0x2D) {
          pos := pos + 1;
        }
        assert Unread() == s1[|sign|..];
        ghost var p1 := pos;
        ok := ScanDigits();
        exp := Exp(s[0], sign, input[p1..pos]);
        return;
      }
      ok := true;
    }

    /** The token of parseNumber: where its digits are and whether it has a fraction or an exponent. */
    method ScanNumber() returns (ok: bool, minus: bool, digits: bytes, floating: bool, ghost n: Number)
      requires InBounds()
      modifies `pos
      ensures InBounds() && pos >= old(pos) && Reached(ReadNumber(old(Unread())), ok, n)
      ensures ok ==> n.minus == minus && n.digits == digits && floating == !IntegerSpelling(n)
    {
      digits, floating, n := [], false, Number(false, [], NoFrac, NoExp);
      ghost var s := Unread();
      minus := pos < |input| && input[pos] == 0x2D;
      if minus {
        pos := pos + 1;
      }
      assert Unread() == if ReadMinus(s) then s[1..] else s;
      var intStart := pos;
      ok := ScanInt();
      if !ok {
        return;
      }
      digits := input[intStart..pos];
      var hasFrac, hasExp;
      ghost var frac, exp;
      ok, hasFrac, frac := ScanFrac();
      if !ok {
        return;
      }
      ok, hasExp, exp := ScanExp();
      floating, n := hasFrac || hasExp, Number(minus, digits, frac, exp);
    }

    method ParseNumber() returns (ok: bool, out: Json<D>)
      requires InBounds()
      modifies `pos
      ensures Reached(JsonParsing.ParseNumber(cfg.fmt, old(Unread())), ok, out)
    {
      out := Null;
      var start := pos;
      var minus, digits, floating;
      ghost var n;
      ok, minus, digits, floating, n := ScanNumber();
      if !ok {
        return;
      }
      TokenIs(input, start, pos, n);
      var v := Interpret(cfg.fmt, input[start..pos], minus, digits, floating, n);
      return v.Some?, if v.Some? then v.value else Null;
    }

    // ----- Strings -----

    method ReadHex4() returns (ok: bool, out: nat)
      requires InBounds()
      modifies `pos
      ensures Reached(JsonParsing.ReadHex4(old(Unread())), ok, out)
    {
      ghost var s := Unread();
      out := 0;
      if pos + 4 > |input| {
        return false, 0;
      }
      ghost var h := s[..4];
      var value: nat := 0;
      var i := 0;
      while i < 4
        invariant 0 <= i <= 4
        invariant forall j :: 0 <= j < i ==> HexDigit(h[j]) >= 0
        invariant value == HexPrefix(h, i)
      {
        var digit := HexDigit(input[pos + i]);
        assert input[pos + i] == h[i];
        if digit < 0 {
          return false, 0;
        }
        value := value * 16 + digit;
        i := i + 1;
      }
      HexPrefixOfFour(h);
      assert s[4..] == input[pos + 4..];
      pos := pos + 4;
      return true, value;
    }

    /** The value of the first `i` hex digits. */
    static ghost function HexPrefix(h: bytes, i: nat): nat
      requires i <= |h| && forall j :: 0 <= j < i ==> HexDigit(h[j]) >= 0
    {
      if i == 0 then 0 else HexPrefix(h, i - 1) * 16 + HexDigit(h[i - 1])
    }

    static lemma HexPrefixOfFour(h: bytes)
      requires IsHex4(h)
      ensures HexPrefix(h, 4) == Hex4(h)
    {
      assert HexPrefix(h, 1) == HexDigit(h[0]);
      assert HexPrefix(h, 2) == HexPrefix(h, 1) * 16 + HexDigit(h[1]);
      assert HexPrefix(h, 3) == HexPrefix(h, 2) * 16 + HexDigit(h[2]);
    }

    method ParseUnicodeEscape(text: bytes) returns (ok: bool, out: bytes)
      requires InBounds()
      modifies `pos
      ensures var r := ParseUnicode(old(Unread()));
        InBounds() && ok == r.Done? && (ok ==> out == text + r.value && Unread() == r.rest)
    {
      out := text;
      var codePoint;
      ok, codePoint := ReadHex4();
      if !ok {
        return;
      }
      if HighSurrogate(codePoint) {
        ghost var s1 := Unread();
        if pos + 2 > |input| || input[pos] != 0x5C || input[pos + 1] != 0x75 {
          return false, text;
        }
        pos := pos + 2;
        assert Unread() == s1[2..];
        var low;
        ok, low := ReadHex4();
        if !ok || low < 0xDC00 || low > 0xDFFF {
          return false, text;
        }
        codePoint := Combine(codePoint, low);
      } else if LowSurrogate(codePoint) {
        return false, text;
      }
      out := text + Utf8.Encode(codePoint);
      return true, out;
    }

    method ParseEscape(text: bytes) returns (ok: bool, out: bytes)
      requires InBounds()
      modifies `pos
      ensures var r := JsonParsing.ParseEscape(old(Unread()));
        InBounds() && ok == r.Done? && (ok ==> out == text + r.value && Unread() == r.rest)
    {
      out := text;
      if pos >= |input| {
        return false, text;
      }
      ghost var s := Unread();
      var c := input[pos];
      pos := pos + 1;
      assert Unread() == s[1..];
      if c == 0x22 || c == 0x5C || c == 0x2F {
        return true, text + [c];
      } else if c == 0x62 {
        return true, text + [0x08];
      } else if c == 0x66 {
        return true, text + [0x0C];
      } else if c == 0x6E {
        return true, text + [0x0A];
      } else if c == 0x72 {
        return true, text + [0x0D];
      } else if c == 0x74 {
        return true, text + [0x09];
      } else if c == 0x75 {
        ok, out := ParseUnicodeEscape(text);
      } else {
        return false, text;
      }
    }

    method ParseString() returns (ok: bool, out: bytes)
      requires InBounds()
      modifies `pos
      ensures Reached(JsonParsing.ParseString(old(Unread())), ok, out)
    {
      out := [];
      ghost var s := Unread();
      if pos >= |input| || input[pos] != 0x22 {
        return false, [];
      }
      pos := pos + 1;
      assert Unread() == s[1..];
      var text: bytes := [];
      while pos < |input|
        invariant InBounds()
        invariant ScanString(Unread(), text) == ScanString(s[1..], [])
        decreases |input| - pos
      {
        var c := input[pos];
        ghost var u := Unread();
        pos := pos + 1;
        assert Unread() == u[1..];
        if c == 0x22 {
          ok := Utf8.IsValidUtf8(text);
          out := text;
          return;
        }
        if c == 0x5C {
          ok, text := ParseEscape(text);
          if !ok {
            return false, [];
          }
          continue;
        }
        if c < 0x20 {
          return false, [];
        }
        text := text + [c];
      }
      return false, [];
    }

    // ----- Values -----

    method ParseValue(depth: nat) returns (ok: bool, out: Json<D>)
      requires InBounds()
      modifies `pos
      ensures Reached(JsonParsing.ParseValue(cfg, depth, old(Unread())), ok, out)
      decreases |input| - pos, 1
    {
      out := Null;
      if pos >= |input| {
        return false, Null;
      }
      ghost var s := Unread();
      var c := input[pos];
      if c == 0x6E {
        ok := Consume(NULL);
        assert ok ==> Unread() == s[|NULL|..];
      } else if c == 0x74 {
        ok := Consume(TRUE);
        assert ok ==> Unread() == s[|TRUE|..];
        out := Bool(true);
      } else if c == 0x66 {
        ok := Consume(FALSE);
        assert ok ==> Unread() == s[|FALSE|..];
        out := Bool(false);
      } else if c == 0x22 {
        var text;
        ok, text := ParseString();
        out := String(text);
      } else if c == 0x5B {
        ok, out := ParseArray(depth);
      } else if c == 0x7B {
        ok, out := ParseObject(depth);
      } else {
        ok, out := ParseNumber();
      }
    }

    method ParseArray(depth: nat) returns (ok: bool, out: Json<D>)
      requires pos < |input|
      modifies `pos
      ensures Reached(JsonParsing.ParseArray(cfg, depth, old(input[pos + 1..])), ok, out)
      decreases |input| - pos, 0
    {
      if depth >= cfg.maxDepth {
        return false, Null;
      }
      ghost var p0 := pos;
      pos := pos + 1;
      SkipWhitespace();
      ghost var s1 := Unread();
      if pos < |input| && input[pos] == 0x5D {
        pos := pos + 1;
        assert Unread() == s1[1..];
        return true, Array([]);
      }
      var items: seq<Json<D>> := [];
      while true
        invariant InBounds() && pos > p0
        invariant ParseElements(cfg, depth + 1, Unread(), items) == ParseElements(cfg, depth + 1, s1, [])
        decreases |input| - pos
      {
        var next, element := ParseElement(depth + 1);
        if next == Bad {
          return false, Null;
        }
        items := items + [element];
        if next == Last {
          return true, Array(items);
        }
      }
    }

    /** One round of parseArray's loop: an element and the comma or bracket after it. */
    method ParseElement(depth: nat) returns (next: Next, element: Json<D>)
      requires InBounds()
      modifies `pos
      ensures InBounds() && (next != Bad ==> pos > old(pos))
      ensures forall items ::
                ParseElements(cfg, depth, old(Unread()), items)
                == match next
                   case Bad => Fail
                   case More => ParseElements(cfg, depth, Unread(), items + [element])
                   case Last => Done(items + [element], Unread())
      decreases |input| - pos, 2
    {
      SkipWhitespace();
      var ok;
      ok, element := ParseValue(depth);
      if !ok {
        return Bad, Null;
      }
      SkipWhitespace();
      if pos >= |input| {
        return Bad, Null;
      }
      var c := input[pos];
      ghost var s2 := Unread();
      pos := pos + 1;
      assert Unread() == s2[1..];
      next := if c == 0x2C then More else if c == 0x5D then Last else Bad;
    }

    method ParseObject(depth: nat) returns (ok: bool, out: Json<D>)
      requires pos < |input|
      modifies `pos
      ensures Reached(JsonParsing.ParseObject(cfg, depth, old(input[pos + 1..])), ok, out)
      decreases |input| - pos, 0
    {
      if depth >= cfg.maxDepth {
        return false, Null;
      }
      ghost var p0 := pos;
      pos := pos + 1;
      SkipWhitespace();
      ghost var s1 := Unread();
      if pos < |input| && input[pos] == 0x7D {
        pos := pos + 1;
        assert Unread() == s1[1..];
        return true, Object([]);
      }
      var fields: seq<Field<D>> := [];
      while true
        invariant InBounds() && pos > p0
        invariant ParseMembers(cfg, depth + 1, Unread(), fields) == ParseMembers(cfg, depth + 1, s1, [])
        decreases |input| - pos
      {
        var next, field := ParseMember(depth + 1);
        if next == Bad {
          return false, Null;
        }
        fields := fields + [field];
        if next == Last {
          return true, Object(fields);
        }
      }
    }

    /** One round of parseObject's loop: a member and the comma or brace after it. */
    method ParseMember(depth: nat) returns (next: Next, field: Field<D>)
      requires InBounds()
      modifies `pos
      ensures InBounds() && (next != Bad ==> pos > old(pos))
      ensures forall fields ::
                ParseMembers(cfg, depth, old(Unread()), fields)
                == match next
                   case Bad => Fail
                   case More => ParseMembers(cfg, depth, Unread(), fields + [field])
                   case Last => Done(fields + [field], Unread())
      decreases |input| - pos, 2
    {
      field := Field([], Null);
      var key, value;
      var ok;
      ok, key := ParseHead();
      if !ok {
        return Bad, field;
      }
      ok, value := ParseValue(depth);
      if !ok {
        return Bad, field;
      }
      SkipWhitespace();
      if pos >= |input| {
        return Bad, field;
      }
      var c := input[pos];
      ghost var s3 := Unread();
      pos := pos + 1;
      assert Unread() == s3[1..];
      field := Field(key, value);
      next := if c == 0x2C then More else if c == 0x7D then Last else Bad;
    }

    /** The part of parseObject's loop that reads a key and its colon. */
    method ParseHead() returns (ok: bool, key: bytes)
      requires InBounds()
      modifies `pos
      ensures Reached(JsonParsing.ParseHead(old(Unread())), ok, key)
    {
      SkipWhitespace();
      ok, key := ParseString();
      if !ok {
        return;
      }
      SkipWhitespace();
      ghost var s2 := Unread();
      if pos >= |input| || input[pos] != 0x3A {
        return false, key;
      }
      pos := pos + 1;
      assert Unread() == s2[1..];
      SkipWhitespace();
    }

    /** A whole document. */
    method Run() returns (r: Option<Json<D>>)
      requires pos == 0
      modifies `pos
      ensures InBounds() && r == Parse(cfg, input)
    {
      assert Unread() == input;
      SkipWhitespace();
      var ok, value := ParseValue(0);
      if !ok {
        return None;
      }
      SkipWhitespace();
      if pos != |input| {
        return None;
      }
      return Some(value);
    }
  }

  /** JsonParser::parse: accepts exactly the texts of the grammar, with the value they spell. */
  method ParseText<D(!new)>(cfg: Config<D>, text: bytes) returns (r: Option<Json<D>>)
    ensures r == Parse(cfg, text)
    ensures r.Some? ==> Spells(cfg.fmt, cfg.maxDepth, text, r.value)
    ensures r.None? ==> forall v :: !Spells(cfg.fmt, cfg.maxDepth, text, v)
  {
    var reader := new Reader(text, cfg);
    r := reader.Run();
    forall v: Json<D> ensures Parse(cfg, text) == Some(v) <==> Spells(cfg.fmt, cfg.maxDepth, text, v) {
      JsonSound.ParserIsGrammar(cfg, text, v);
    }
  }
}
