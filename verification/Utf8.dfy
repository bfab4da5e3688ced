/** Bytes as the program sees them: a `char` read through `unsigned char`. */
module Bytes {
  type byte = x: int | 0 <= x < 256
  type bytes = seq<byte>

  datatype Option<+T> = None | Some(value: T)

  /** Concatenation of a list of byte strings. */
  ghost function Flatten(parts: seq<bytes>): bytes {
    if parts == [] then [] else parts[0] + Flatten(parts[1..])
  }

  lemma {:induction false} FlattenAppend(xs: seq<bytes>, ys: seq<bytes>)
    ensures Flatten(xs + ys) == Flatten(xs) + Flatten(ys)
  {
    if xs == [] {
      assert xs + ys == ys;
    } else {
      assert (xs + ys)[1..] == xs[1..] + ys;
      FlattenAppend(xs[1..], ys);
    }
  }

  lemma Regroup(a: bytes, n: nat, b: bytes)
    requires n <= |a|
    ensures a[..n] + (a[n..] + b) == a + b
    ensures (a + b)[..n] == a[..n] && (a + b)[n..] == a[n..] + b
  {
  }

  lemma Associate<T>(a: seq<T>, b: seq<T>, c: seq<T>)
    ensures a + b + c == a + (b + c)
  {
  }

  ghost predicate Distinct<T>(s: seq<T>) { forall i, j :: 0 <= i < j < |s| ==> s[i] != s[j] }

  lemma PushThenRest<T>(xs: seq<T>, x: T, ys: seq<T>)
    ensures xs + [x] + ys == xs + ([x] + ys)
  {
  }

  lemma FlattenSnoc(xs: seq<bytes>, y: bytes)
    ensures Flatten(xs + [y]) == Flatten(xs) + y
  {
    FlattenAppend(xs, [y]);
    assert Flatten([y]) == y;
  }
}

/**
 * UTF-8 as section 4 of RFC 3629 defines it, the validator shared by the JSON
 * writer and parser, and the encoder used for \u escapes.
 *
 * Masks and shifts of the source are written as division and remainder:
 * `lead & 0xE0 == 0xC0` is `lead / 32 == 6`, `cp & 0x3F` is `cp % 64`.
 */
module Utf8 {
  import opened Bytes

  // ----- The grammar of RFC 3629 -----

  predicate Tail(b: byte) { 0x80 <= b <= 0xBF }

  /** UTF8-char. */
  predicate Char(c: bytes) {
    || (|c| == 1 && c[0] <= 0x7F)
    || (|c| == 2 && 0xC2 <= c[0] <= 0xDF && Tail(c[1]))
    || (|c| == 3 && Tail(c[2]) && Char3(c[0], c[1]))
    || (|c| == 4 && Tail(c[2]) && Tail(c[3]) && Char4(c[0], c[1]))
  }

  predicate Char3(a: byte, b: byte) {
    || (a == 0xE0 && 0xA0 <= b <= 0xBF)
    || (0xE1 <= a <= 0xEC && Tail(b))
    || (a == 0xED && 0x80 <= b <= 0x9F)
    || (0xEE <= a <= 0xEF && Tail(b))
  }

  predicate Char4(a: byte, b: byte) {
    || (a == 0xF0 && 0x90 <= b <= 0xBF)
    || (0xF1 <= a <= 0xF3 && Tail(b))
    || (a == 0xF4 && 0x80 <= b <= 0x8F)
  }

  /** How many bytes a character starting with this lead takes. */
  function Width(lead: byte): nat {
    if lead < 0xC0 then 1 else if lead < 0xE0 then 2 else if lead < 0xF0 then 3 else 4
  }

  /**
   * UTF8-octets: any number of UTF8-chars. The lead byte determines how long
   * the first one is, so there is only one way to split a text.
   */
  predicate Octets(s: bytes)
    decreases |s|
  {
    s == [] || (Width(s[0]) <= |s| && Char(s[..Width(s[0])]) && Octets(s[Width(s[0])..]))
  }

  lemma OctetsCons(c: bytes, s: bytes)
    requires Char(c)
    ensures Octets(c + s) <==> Octets(s)
  {
    var cs := c + s;
    assert Width(cs[0]) == |c|;
    assert cs[..|c|] == c && cs[|c|..] == s;
  }

  lemma {:induction false} OctetsConcat(a: bytes, b: bytes)
    requires Octets(a) && Octets(b)
    ensures Octets(a + b)
    decreases |a|
  {
    if a == [] {
      assert a + b == b;
    } else {
      var n := Width(a[0]);
      OctetsConcat(a[n..], b);
      OctetsCons(a[..n], a[n..] + b);
      Regroup(a, n, b);
    }
  }

  /** A character cannot start before a lead byte and reach over it. */
  lemma NoCharAcrossLead(s: bytes, k: nat)
    requires 0 < k < |s| && !Tail(s[k])
    requires Width(s[0]) <= |s| && Char(s[..Width(s[0])])
    ensures Width(s[0]) <= k
  {
    var c := s[..Width(s[0])];
    assert forall j :: 1 <= j < |c| ==> Tail(c[j]) && c[j] == s[j];
  }

  lemma {:induction false} OctetsBeforeLead(a: bytes, t: bytes)
    requires Octets(a + t) && t != [] && !Tail(t[0])
    ensures Octets(a) && Octets(t)
    decreases |a|
  {
    if a == [] {
      assert a + t == t;
    } else {
      var n := Width(a[0]);
      assert (a + t)[|a|] == t[0];
      NoCharAcrossLead(a + t, |a|);
      Regroup(a, n, t);
      OctetsBeforeLead(a[n..], t);
    }
  }

  /**
   * Self-synchronisation: a whole character in the middle of a text neither
   * repairs nor breaks what stands before and after it.
   */
  lemma SelfSynchronising(a: bytes, c: bytes, b: bytes)
    requires Char(c)
    ensures Octets(a + (c + b)) <==> Octets(a) && Octets(b)
  {
    OctetsCons(c, b);
    if Octets(a) && Octets(b) {
      OctetsConcat(a, c + b);
    }
    if Octets(a + (c + b)) {
      OctetsBeforeLead(a, c + b);
    }
  }

  // ----- Scalars -----

  predicate Scalar(cp: int) { 0 <= cp <= 0x10FFFF && !(0xD800 <= cp <= 0xDFFF) }

  /** appendUtf8: the bytes pushed for one code point. */
  function Encode(cp: int): (c: bytes)
    requires 0 <= cp <= 0x10FFFF
  {
    if cp <= 0x7F then [cp]
    else if cp <= 0x7FF then [0xC0 + cp / 64, 0x80 + cp % 64]
    else if cp <= 0xFFFF then [0xE0 + cp / 64 / 64, 0x80 + cp / 64 % 64, 0x80 + cp % 64]
    else [0xF0 + cp / 64 / 64 / 64, 0x80 + cp / 64 / 64 % 64, 0x80 + cp / 64 % 64, 0x80 + cp % 64]
  }

  /** One `(codePoint << 6) | (next & 0x3F)` step. */
  function Join(codePoint: nat, next: byte): nat { codePoint * 64 + next % 64 }

  function Decode(c: bytes): (cp: int)
    requires Char(c)
  {
    if |c| == 1 then c[0]
    else if |c| == 2 then Join(c[0] - 0xC0, c[1])
    else if |c| == 3 then Join(Join(c[0] - 0xE0, c[1]), c[2])
    else Join(Join(Join(c[0] - 0xF0, c[1]), c[2]), c[3])
  }

  lemma JoinInverts(cp: nat)
    ensures Join(cp / 64, 0x80 + cp % 64) == cp
  {
  }

  lemma JoinSplits(high: nat, next: byte)
    requires Tail(next)
    ensures Join(high, next) / 64 == high && 0x80 + Join(high, next) % 64 == next
  {
  }

  /** Each scalar is encoded as one character, which decodes back to it. */
  lemma DecodeEncode(cp: int)
    requires Scalar(cp)
    ensures Char(Encode(cp)) && Decode(Encode(cp)) == cp
  {
    EncodeIsChar(cp);
    JoinInverts(cp);
    if cp > 0x7FF {
      JoinInverts(cp / 64);
      if cp > 0xFFFF {
        JoinInverts(cp / 64 / 64);
      }
    }
  }

  lemma EncodeIsChar(cp: int)
    requires Scalar(cp)
    ensures Char(Encode(cp))
  {
    var c := Encode(cp);
    if cp <= 0x7FF {
    } else if cp <= 0xFFFF {
      assert Char3(c[0], c[1]);
    } else {
      assert Char4(c[0], c[1]);
    }
  }

  /** Every character decodes to a scalar and is that scalar's encoding. */
  lemma EncodeDecode(c: bytes)
    requires Char(c)
    ensures Scalar(Decode(c)) && Encode(Decode(c)) == c
  {
    if |c| == 2 {
      JoinSplits(c[0] - 0xC0, c[1]);
    } else if |c| == 3 {
      EncodeDecode3(c);
    } else if |c| == 4 {
      EncodeDecode4(c);
    }
  }

  lemma EncodeDecode3(c: bytes)
    requires Char(c) && |c| == 3
    ensures Scalar(Decode(c)) && Encode(Decode(c)) == c
  {
    var high := Join(c[0] - 0xE0, c[1]);
    JoinSplits(c[0] - 0xE0, c[1]);
    JoinSplits(high, c[2]);
    assert 0x20 <= high <= 0x3FF && !(0x360 <= high <= 0x37F);
  }

  lemma EncodeDecode4(c: bytes)
    requires Char(c) && |c| == 4
    ensures Scalar(Decode(c)) && Encode(Decode(c)) == c
  {
    var high := Join(c[0] - 0xF0, c[1]);
    var mid := Join(high, c[2]);
    JoinSplits(c[0] - 0xF0, c[1]);
    JoinSplits(high, c[2]);
    JoinSplits(mid, c[3]);
    assert 0x10 <= high <= 0x10F;
    assert 0x400 <= mid <= 0x43FF;
  }

  ghost predicate Scalars(cps: seq<int>) { forall i :: 0 <= i < |cps| ==> Scalar(cps[i]) }

  ghost function EncodeAll(cps: seq<int>): bytes
    requires Scalars(cps)
  {
    if cps == [] then [] else Encode(cps[0]) + EncodeAll(cps[1..])
  }

  /** A byte string is UTF-8 exactly when it encodes some list of Unicode scalars. */
  lemma OctetsAreEncodedScalars(s: bytes)
    ensures Octets(s) <==> exists cps :: Scalars(cps) && EncodeAll(cps) == s
  {
    if Octets(s) {
      var cps := ScalarsOf(s);
    }
    forall cps | Scalars(cps) ensures Octets(EncodeAll(cps)) {
      EncodedScalarsAreOctets(cps);
    }
  }

  lemma {:induction false} ScalarsOf(s: bytes) returns (cps: seq<int>)
    requires Octets(s)
    ensures Scalars(cps) && EncodeAll(cps) == s
    decreases |s|
  {
    if s == [] {
      cps := [];
    } else {
      var n := Width(s[0]);
      var rest := ScalarsOf(s[n..]);
      EncodeDecode(s[..n]);
      cps := [Decode(s[..n])] + rest;
      assert cps[1..] == rest && s == s[..n] + s[n..];
    }
  }

  lemma {:induction false} EncodedScalarsAreOctets(cps: seq<int>)
    requires Scalars(cps)
    ensures Octets(EncodeAll(cps))
  {
    if cps != [] {
      EncodedScalarsAreOctets(cps[1..]);
      DecodeEncode(cps[0]);
      OctetsCons(Encode(cps[0]), EncodeAll(cps[1..]));
    }
  }

  // ----- isValidUtf8 -----

  /** Code point accumulated from the payload bits of a lead byte and some tails. */
  function Gather(seed: nat, tails: bytes): nat {
    if tails == [] then seed
    else Join(Gather(seed, tails[..|tails| - 1]), tails[|tails| - 1])
  }

  lemma GatherSnoc(seed: nat, tails: bytes, b: byte)
    ensures Gather(seed, tails + [b]) == Join(Gather(seed, tails), b)
  {
    assert (tails + [b])[..|tails|] == tails;
  }

  /** The code point the validator assembles from a lead and its tails. */
  lemma GatherIsDecode(c: bytes)
    requires 2 <= |c| <= 4 && AllTails(c)
    ensures |c| == 2 ==> Gather(c[0] % 32, c[1..]) == Join(c[0] % 32, c[1])
    ensures |c| == 3 ==> Gather(c[0] % 16, c[1..]) == Join(Join(c[0] % 16, c[1]), c[2])
    ensures |c| == 4 ==> Gather(c[0] % 8, c[1..]) == Join(Join(Join(c[0] % 8, c[1]), c[2]), c[3])
  {
    if |c| == 2 {
      assert c[1..] == [] + [c[1]];
      GatherSnoc(c[0] % 32, [], c[1]);
    } else if |c| == 3 {
      assert c[1..] == [] + [c[1]] + [c[2]];
      GatherSnoc(c[0] % 16, [], c[1]);
      GatherSnoc(c[0] % 16, [] + [c[1]], c[2]);
    } else {
      assert c[1..] == [] + [c[1]] + [c[2]] + [c[3]];
      GatherSnoc(c[0] % 8, [], c[1]);
      GatherSnoc(c[0] % 8, [] + [c[1]], c[2]);
      GatherSnoc(c[0] % 8, [] + [c[1]] + [c[2]], c[3]);
    }
  }

  /** The verdict on an assembled code point, after all tails were continuation bytes. */
  predicate InRange(length: nat, cp: nat) {
    && !((length == 3 && cp < 0x800) || (length == 4 && cp < 0x10000))
    && !(0xD800 <= cp <= 0xDFFF) && cp <= 0x10FFFF
  }

  // The range tests are exactly the table of RFC 3629, width by width.

  lemma RangeTest2(c: bytes)
    requires |c| == 2 && c[0] / 32 == 6 && c[0] % 32 >= 2 && Tail(c[1])
    ensures Char(c) && InRange(2, Gather(c[0] % 32, c[1..]))
  {
    GatherIsDecode(c);
  }

  lemma RangeTest3(c: bytes)
    requires |c| == 3 && c[0] / 16 == 14 && Tail(c[1]) && Tail(c[2])
    ensures Char(c) <==> InRange(3, Gather(c[0] % 16, c[1..]))
  {
    GatherIsDecode(c);
    var high := Join(c[0] % 16, c[1]);
    var a: int, b: int, d: int := c[0] % 16, c[1] - 0x80, c[2] - 0x80;
    assert c[1] % 64 == b && c[2] % 64 == d;
    assert high == a * 64 + b && Join(high, c[2]) == high * 64 + d;
    assert Char3(c[0], c[1]) <==> high >= 0x20 && !(0x360 <= high <= 0x37F);
  }

  lemma RangeTest4(c: bytes)
    requires |c| == 4 && c[0] / 8 == 30 && c[0] % 8 <= 4 && Tail(c[1]) && Tail(c[2]) && Tail(c[3])
    ensures Char(c) <==> InRange(4, Gather(c[0] % 8, c[1..]))
  {
    GatherIsDecode(c);
    var a: int, b: int, d: int, e: int := c[0] % 8, c[1] - 0x80, c[2] - 0x80, c[3] - 0x80;
    assert c[1] % 64 == b && c[2] % 64 == d && c[3] % 64 == e;
    var high := Join(c[0] % 8, c[1]);
    var mid := Join(high, c[2]);
    assert high == a * 64 + b && mid == high * 64 + d && Join(mid, c[3]) == mid * 64 + e;
    assert Char4(c[0], c[1]) <==> 0x10 <= high <= 0x10F;
  }

  /** The payload bits of a lead byte that announces `length` bytes. */
  predicate LeadBits(lead: byte, length: nat, seed: nat) {
    || (length == 2 && lead / 32 == 6 && seed == lead % 32 && seed >= 2)
    || (length == 3 && lead / 16 == 14 && seed == lead % 16)
    || (length == 4 && lead / 8 == 30 && seed == lead % 8 && seed <= 4)
  }

  lemma RangeTests(c: bytes, seed: nat)
    requires c != [] && LeadBits(c[0], |c|, seed) && AllTails(c)
    ensures Char(c) <==> InRange(|c|, Gather(seed, c[1..]))
  {
    if |c| == 2 {
      RangeTest2(c);
    } else if |c| == 3 {
      RangeTest3(c);
    } else {
      RangeTest4(c);
    }
  }

  /** isValidUtf8's dispatch on the lead byte: sequence length and payload bits, or length 0. */
  method ClassifyLead(lead: byte) returns (length: nat, codePoint: nat)
    requires lead >= 0x80
    ensures length != 0 ==> LeadBits(lead, length, codePoint) && length == Width(lead)
    ensures length == 0 ==> lead < 0xC2 || lead > 0xF4
  {
    length, codePoint := 0, 0;
    if lead / 32 == 6 {
      length, codePoint := 2, lead % 32;
      if codePoint < 2 {
        length := 0;
      }
    } else if lead / 16 == 14 {
      length, codePoint := 3, lead % 16;
    } else if lead / 8 == 30 {
      length, codePoint := 4, lead % 8;
      if codePoint > 4 {
        length := 0;
      }
    }
  }

  lemma NotALead(c: bytes)
    requires c != [] && (0x80 <= c[0] < 0xC2 || c[0] > 0xF4)
    ensures !Char(c)
  {
  }

  lemma GatherNext(seed: nat, c: bytes, j: nat)
    requires 1 <= j < |c|
    ensures Gather(seed, c[1..j + 1]) == Join(Gather(seed, c[1..j]), c[j])
  {
    GatherSnoc(seed, c[1..j], c[j]);
    assert c[1..j + 1] == c[1..j] + [c[j]];
  }

  /** The inner loop: every further byte must be a continuation byte. */
  method GatherTails(text: bytes, i: nat, length: nat, seed: nat) returns (ok: bool, codePoint: nat)
    requires 1 <= length && i + length <= |text|
    ensures var c := text[i..i + length];
      ok == AllTails(c) && (ok ==> codePoint == Gather(seed, c[1..]))
  {
    ghost var c := text[i..i + length];
    codePoint := seed;
    var j := 1;
    while j < length
      invariant 1 <= j <= length
      invariant forall k :: 1 <= k < j ==> Tail(c[k])
      invariant codePoint == Gather(seed, c[1..j])
    {
      var next := text[i + j];
      assert next == c[j];
      if next / 64 != 2 {
        return false, codePoint;
      }
      GatherNext(seed, c, j);
      codePoint := Join(codePoint, next);
      j := j + 1;
    }
    assert c[1..length] == c[1..];
    ok := true;
  }

  predicate AllTails(c: bytes) { forall k :: 1 <= k < |c| ==> Tail(c[k]) }

  lemma BadTail(c: bytes)
    requires !AllTails(c)
    ensures !Char(c)
  {
  }

  /** The body of isValidUtf8's loop for a lead byte from 0x80 up: the length of the sequence, or 0. */
  method MultiByteLength(text: bytes, i: nat) returns (length: nat)
    requires i < |text| && text[i] >= 0x80
    ensures length != 0 <==> i + Width(text[i]) <= |text| && Char(text[i..i + Width(text[i])])
    ensures length != 0 ==> length == Width(text[i])
  {
    var codePoint: nat;
    length, codePoint := ClassifyLead(text[i]);
    if length == 0 {
      if i + Width(text[i]) <= |text| {
        NotALead(text[i..i + Width(text[i])]);
      }
      return 0;
    }
    if i + length > |text| {
      return 0;
    }
    ghost var seed := codePoint;
    ghost var c := text[i..i + length];
    var ok;
    ok, codePoint := GatherTails(text, i, length, codePoint);
    if !ok {
      BadTail(c);
      return 0;
    }
    RangeTests(c, seed);
    if (length == 3 && codePoint < 0x800) || (length == 4 && codePoint < 0x10000) {
      return 0;
    }
    if 0xD800 <= codePoint <= 0xDFFF {
      return 0;
    }
    if codePoint > 0x10FFFF {
      return 0;
    }
  }

  lemma OctetsAt(text: bytes, i: nat)
    requires i < |text|
    ensures Octets(text[i..]) <==>
      i + Width(text[i]) <= |text| && Char(text[i..i + Width(text[i])]) && Octets(text[i + Width(text[i])..])
  {
    var s, n := text[i..], Width(text[i]);
    if i + n <= |text| {
      assert s[..n] == text[i..i + n] && s[n..] == text[i + n..];
    }
  }

  method IsValidUtf8(text: bytes) returns (valid: bool)
    ensures valid <==> Octets(text)
  {
    var i := 0;
    while i < |text|
      invariant 0 <= i <= |text|
      invariant Octets(text) <==> Octets(text[i..])
    {
      OctetsAt(text, i);
      if text[i] < 0x80 {
        i := i + 1;
        continue;
      }
      var length := MultiByteLength(text, i);
      if length == 0 {
        return false;
      }
      i := i + length;
    }
    return true;
  }
}
