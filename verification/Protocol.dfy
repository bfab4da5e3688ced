/** The 16-byte frame header and the request envelope of the v0.1 wire format. */
module Protocol {
  import opened Bytes

  type uint16 = x: int | 0 <= x < 0x1_0000
  type uint32 = x: int | 0 <= x < 0x1_0000_0000

  const MAGIC: uint16 := 0x4E52
  const VERSION: byte := 1
  const HEADER_SIZE: nat := 16
  const REQUEST: byte := 1
  const RESPONSE: byte := 2
  /** 16 MiB. */
  const MAX_BODY_LEN: nat := 0x100_0000

  /** Message type and status are bytes off the wire, not yet judged. */
  datatype Header = Header(
    magic: uint16, version: byte, kind: byte, flags: byte, status: byte,
    serializer: byte, requestId: uint32, bodyLen: uint32)

  function PutU16(x: uint16): (s: bytes)
    ensures |s| == 2
  {
    [x % 256, x / 256]
  }

  function PutU32(x: uint32): (s: bytes)
    ensures |s| == 4
  {
    PutU16(x % 0x1_0000) + PutU16(x / 0x1_0000)
  }

  function GetU16(s: bytes): uint16
    requires |s| == 2
  {
    var low: int, high: int := s[0], s[1];
    low + high * 256
  }

  function GetU32(s: bytes): uint32
    requires |s| == 4
  {
    var low: int, high: int := GetU16(s[..2]), GetU16(s[2..]);
    low + high * 0x1_0000
  }

  lemma U16RoundTrip(x: uint16)
    ensures GetU16(PutU16(x)) == x
  {
  }

  lemma U16Reencodes(s: bytes)
    requires |s| == 2
    ensures PutU16(GetU16(s)) == s
  {
  }

  lemma U32RoundTrip(x: uint32)
    ensures GetU32(PutU32(x)) == x
  {
    var low, high := PutU16(x % 0x1_0000), PutU16(x / 0x1_0000);
    assert PutU32(x)[..2] == low && PutU32(x)[2..] == high;
    U16RoundTrip(x % 0x1_0000);
    U16RoundTrip(x / 0x1_0000);
  }

  lemma SplitHalves(low: uint16, high: uint16)
    ensures (low + high * 0x1_0000) % 0x1_0000 == low && (low + high * 0x1_0000) / 0x1_0000 == high
  {
  }

  lemma U32Reencodes(s: bytes)
    requires |s| == 4
    ensures PutU32(GetU32(s)) == s
  {
    SplitHalves(GetU16(s[..2]), GetU16(s[2..]));
    U16Reencodes(s[..2]);
    U16Reencodes(s[2..]);
    assert s == s[..2] + s[2..];
  }

  /** encodeHeader. Byte 7 is reserved and written as zero. */
  function EncodeHeader(h: Header): (s: bytes)
    ensures |s| == HEADER_SIZE
  {
    PutU16(h.magic) + [h.version, h.kind, h.flags, h.status, h.serializer, 0]
    + PutU32(h.requestId) + PutU32(h.bodyLen)
  }

  /** decodeHeader: needs 16 bytes and the magic; byte 7 is ignored. */
  function DecodeHeader(s: bytes): Option<Header> {
    if |s| < HEADER_SIZE || GetU16(s[..2]) != MAGIC then None
    else Some(Header(GetU16(s[..2]), s[2], s[3], s[4], s[5], s[6], GetU32(s[8..12]), GetU32(s[12..16])))
  }

  /** A number in base 256, least significant byte first. */
  function LittleEndian(s: bytes): nat {
    if s == [] then 0 else s[0] + 256 * LittleEndian(s[1..])
  }

  lemma U16IsLittleEndian(s: bytes)
    requires |s| == 2
    ensures GetU16(s) == LittleEndian(s)
  {
    assert LittleEndian(s[1..]) == s[1] + 256 * LittleEndian(s[1..][1..]);
  }

  lemma U32IsLittleEndian(s: bytes)
    requires |s| == 4
    ensures GetU32(s) == LittleEndian(s)
  {
    U16IsLittleEndian(s[..2]);
    U16IsLittleEndian(s[2..]);
    var t := s[1..];
    assert t[1..] == s[2..] && s[..2][1..] == [s[1]];
    assert LittleEndian(s[..2]) == s[0] + 256 * LittleEndian([s[1]]);
    assert LittleEndian(t) == s[1] + 256 * LittleEndian(s[2..]);
  }

  /**
   * Where the fields stand: the magic "RN", six single bytes of which the last
   * is reserved, then request id and body length, least significant byte first.
   */
  ghost predicate Layout(h: Header, s: bytes) {
    && |s| >= 16 && s[0] == 0x52 && s[1] == 0x4E
    && s[2] == h.version && s[3] == h.kind && s[4] == h.flags && s[5] == h.status && s[6] == h.serializer
    && LittleEndian(s[8..12]) == h.requestId && LittleEndian(s[12..16]) == h.bodyLen
  }

  lemma DecodedLayout(s: bytes, h: Header)
    ensures DecodeHeader(s) == Some(h) <==> h.magic == 0x4E52 && Layout(h, s)
  {
    if |s| >= 16 {
      U16Reencodes(s[..2]);
      assert s[..2] == [s[0], s[1]];
      U32IsLittleEndian(s[8..12]);
      U32IsLittleEndian(s[12..16]);
    }
  }

  lemma EncodedLayout(h: Header)
    requires h.magic == 0x4E52
    ensures Layout(h, EncodeHeader(h)) && EncodeHeader(h)[7] == 0
  {
    var s := EncodeHeader(h);
    HeaderRoundTrip(h, []);
    assert s + [] == s;
    DecodedLayout(s, h);
  }

  /** A header decodes to itself, whatever bytes follow it. */
  lemma HeaderRoundTrip(h: Header, rest: bytes)
    ensures DecodeHeader(EncodeHeader(h) + rest) == if h.magic == MAGIC then Some(h) else None
  {
    var s := EncodeHeader(h) + rest;
    assert s[..2] == PutU16(h.magic) && s[8..12] == PutU32(h.requestId) && s[12..16] == PutU32(h.bodyLen);
    U16RoundTrip(h.magic);
    U32RoundTrip(h.requestId);
    U32RoundTrip(h.bodyLen);
  }

  /** Nothing but the reserved byte is lost in decoding. */
  lemma HeaderReencodes(s: bytes)
    requires DecodeHeader(s).Some?
    ensures EncodeHeader(DecodeHeader(s).value) == s[..16][7 := 0]
  {
    var h := DecodeHeader(s).value;
    U16Reencodes(s[..2]);
    U32Reencodes(s[8..12]);
    U32Reencodes(s[12..16]);
    Reassemble(s);
  }

  lemma Reassemble(s: bytes)
    requires |s| >= 16
    ensures s[..2] + [s[2], s[3], s[4], s[5], s[6], 0] + s[8..12] + s[12..16] == s[..16][7 := 0]
  {
  }

  /** Decoding looks only at the first 16 bytes. */
  lemma DecodeHeaderPrefix(s: bytes, t: bytes)
    requires |s| >= HEADER_SIZE
    ensures DecodeHeader(s + t) == DecodeHeader(s)
  {
    assert (s + t)[..2] == s[..2] && (s + t)[8..12] == s[8..12] && (s + t)[12..16] == s[12..16];
  }

  // ----- The request envelope: [u16 svc_len][service][u16 method_len][method][payload] -----

  datatype Request = Request(service: bytes, name: bytes, payload: bytes)

  predicate NameFits(name: bytes) { 1 <= |name| <= 0xFFFF }

  /** A request body the codec produces. */
  type Body = b: bytes | |b| <= MAX_BODY_LEN witness []

  function EncodeRequest(r: Request): Option<Body> {
    if !NameFits(r.service) || !NameFits(r.name) then None
    else if 2 + |r.service| + 2 + |r.name| + |r.payload| > MAX_BODY_LEN then None
    else Some(PutU16(|r.service|) + r.service + PutU16(|r.name|) + r.name + r.payload)
  }

  function DecodeRequest(s: bytes): Option<Request> {
    if |s| < 2 || |s| > MAX_BODY_LEN then None
    else
      var svcLen := GetU16(s[..2]);
      if svcLen == 0 || |s| < 2 + svcLen + 2 then None
      else
        var methodOffset := 2 + svcLen;
        var methodLen := GetU16(s[methodOffset..methodOffset + 2]);
        if methodLen == 0 || |s| < 4 + svcLen + methodLen then None
        else Some(Request(s[2..2 + svcLen],
                          s[methodOffset + 2..methodOffset + 2 + methodLen],
                          s[4 + svcLen + methodLen..]))
  }

  lemma EncodedDecodes(r: Request, s: bytes)
    requires EncodeRequest(r) == Some(s)
    ensures DecodeRequest(s) == Some(r)
  {
    var a, b := |r.service|, |r.name|;
    assert s[..2] == PutU16(a) && s[2..2 + a] == r.service;
    assert s[2 + a..4 + a] == PutU16(b) && s[4 + a..4 + a + b] == r.name;
    assert s[4 + a + b..] == r.payload;
    U16RoundTrip(a);
    U16RoundTrip(b);
  }

  lemma DecodedEncodes(r: Request, s: bytes)
    requires DecodeRequest(s) == Some(r)
    ensures EncodeRequest(r) == Some(s)
  {
    var a, b := |r.service|, |r.name|;
    U16Reencodes(s[..2]);
    U16Reencodes(s[2 + a..4 + a]);
    assert s == s[..2] + s[2..2 + a] + s[2 + a..4 + a] + s[4 + a..4 + a + b] + s[4 + a + b..];
  }

  /** The envelope is a bijection between encodable requests and decodable bodies. */
  lemma EnvelopeBijection(r: Request, s: bytes)
    ensures EncodeRequest(r) == Some(s) <==> DecodeRequest(s) == Some(r)
  {
    if EncodeRequest(r) == Some(s) {
      EncodedDecodes(r, s);
    }
    if DecodeRequest(s) == Some(r) {
      DecodedEncodes(r, s);
    }
  }

  /** Where the parts of a request stand: each name behind its two-byte length, then the payload. */
  ghost predicate EnvelopeLayout(r: Request, s: bytes) {
    var a, b := |r.service|, |r.name|;
    && 1 <= a <= 65535 && 1 <= b <= 65535 && |s| == 4 + a + b + |r.payload| <= 16 * 1024 * 1024
    && LittleEndian(s[..2]) == a && s[2..2 + a] == r.service
    && LittleEndian(s[2 + a..4 + a]) == b && s[4 + a..4 + a + b] == r.name && s[4 + a + b..] == r.payload
  }

  lemma EncodedEnvelope(r: Request, s: bytes)
    ensures EncodeRequest(r) == Some(s) <==> EnvelopeLayout(r, s)
  {
    EnvelopeBijection(r, s);
    if 4 + |r.service| + |r.name| <= |s| {
      U16IsLittleEndian(s[..2]);
      U16IsLittleEndian(s[2 + |r.service|..4 + |r.service|]);
    }
  }

  /** encodeResponse and decodeResponse: the body is the payload, up to 16 MiB. */
  predicate ResponseFits(payload: bytes) { |payload| <= MAX_BODY_LEN }

  datatype Response = Response(status: byte, payload: bytes, serializer: byte)

  const STATUS_OK: byte := 0x00
  const UNSUPPORTED_VERSION: byte := 0x01
  const UNSUPPORTED_MSG_TYPE: byte := 0x02
  const UNSUPPORTED_FLAG: byte := 0x03
  const BODY_TOO_LARGE: byte := 0x05
  const MALFORMED_BODY: byte := 0x06
  const UNKNOWN_SERVICE: byte := 0x07
  const UNKNOWN_METHOD: byte := 0x08
  const INTERNAL_ERROR: byte := 0x09
  const TIMEOUT: byte := 0x0A
  const CONNECTION_CLOSED: byte := 0x0B
  const BAD_REQUEST: byte := 0x0C
  const UNSUPPORTED_SERIALIZER: byte := 0x0D
}
