/**
 The 24-byte encapsulation header, section 2-3.1 of CIP Volume 2.
 */
module Encapsulation {
  import opened Bytes

  const HEADER_SIZE: nat := 24

  const REGISTER_SESSION: u16 := 0x0065
  const UNREGISTER_SESSION: u16 := 0x0066
  const SEND_RR_DATA: u16 := 0x006F
  const SEND_UNIT_DATA: u16 := 0x0070

  datatype Header = Header(
    command: u16,
    length: u16,      // bytes following the header
    session: u32,
    status: u32,
    context: u64,     // echoed by the peer
    options: u32)

  function HeaderBytes(h: Header): (s: seq<byte>)
    ensures |s| == HEADER_SIZE
  {
    LE16(h.command) + LE16(h.length) + LE32(h.session) + LE32(h.status) + LE(h.context, 8) + LE32(h.options)
  }

  /** The header at the front of a byte string. */
  function HeaderOf(s: seq<byte>): Header
    requires |s| >= HEADER_SIZE
  {
    Header(U16At(s, 0), U16At(s, 2), U32At(s, 4), U32At(s, 8), U64At(s, 12), U32At(s, 20))
  }

  /** Decoding inverts encoding, whatever follows the header. */
  lemma HeaderRoundTrip(h: Header, rest: seq<byte>)
    ensures HeaderOf(HeaderBytes(h) + rest) == h
  {
    var s := HeaderBytes(h) + rest;
    assert s[..24] == HeaderBytes(h);
    assert s[0..2] == LE16(h.command) && s[2..4] == LE16(h.length);
    assert s[4..8] == LE32(h.session) && s[8..12] == LE32(h.status);
    assert s[12..20] == LE(h.context, 8) && s[20..24] == LE32(h.options);
    Read16([], h.command, s[2..]);
    Read16(s[..2], h.length, s[4..]);
    Read32(s[..4], h.session, s[8..]);
    Read32(s[..8], h.status, s[12..]);
    Read64(s[..12], h.context, s[20..]);
    Read32(s[..20], h.options, s[24..]);
    Around(s, 0, 2);
    Around(s, 2, 4);
    Around(s, 4, 8);
    Around(s, 8, 12);
    Around(s, 12, 20);
    Around(s, 20, 24);
  }

  lemma Around(s: seq<byte>, i: nat, j: nat)
    requires i <= j <= |s|
    ensures s[..i] + s[i..j] + s[j..] == s
  {
  }

  /** Every 24 bytes are the encoding of the header they decode to. */
  lemma HeaderIsOnto(s: seq<byte>)
    requires |s| >= HEADER_SIZE
    ensures HeaderBytes(HeaderOf(s)) == s[..HEADER_SIZE]
  {
    Write16(s, 0);
    Write16(s, 2);
    Write32(s, 4);
    Write32(s, 8);
    LEOfVal(s[12..20]);
    Write32(s, 20);
    assert s[..24] == s[0..2] + s[2..4] + s[4..8] + s[8..12] + s[12..20] + s[20..24];
  }

  /** Only the first 24 bytes matter. */
  lemma HeaderLocal(s: seq<byte>, t: seq<byte>)
    requires |s| >= HEADER_SIZE && |t| >= HEADER_SIZE && s[..HEADER_SIZE] == t[..HEADER_SIZE]
    ensures HeaderOf(s) == HeaderOf(t)
  {
    forall k | 0 <= k < HEADER_SIZE
      ensures s[k] == t[k]
    {
      assert s[k] == s[..HEADER_SIZE][k] == t[..HEADER_SIZE][k];
    }
    assert s[12..20] == t[12..20];
  }

  method EncodeHeader(buf: array<byte>, h: Header)
    requires buf.Length >= HEADER_SIZE
    modifies buf
    ensures buf[..HEADER_SIZE] == HeaderBytes(h)
    ensures forall k | HEADER_SIZE <= k < buf.Length :: buf[k] == old(buf[k])
  {
    PutU16(buf, 0, h.command);
    assert buf[..2] == LE16(h.command);
    PutU16(buf, 2, h.length);
    assert buf[..4] == LE16(h.command) + LE16(h.length);
    PutU32(buf, 4, h.session);
    assert buf[..8] == LE16(h.command) + LE16(h.length) + LE32(h.session);
    PutU32(buf, 8, h.status);
    PutU64(buf, 12, h.context);
    PutU32(buf, 20, h.options);
  }

  method DecodeHeader(buf: array<byte>) returns (h: Header)
    requires buf.Length >= HEADER_SIZE
    ensures h == HeaderOf(buf[..])
  {
    var command := GetU16(buf, 0);
    var length := GetU16(buf, 2);
    var session := GetU32(buf, 4);
    var status := GetU32(buf, 8);
    var context := GetU64(buf, 12);
    var options := GetU32(buf, 20);
    h := Header(command, length, session, status, context, options);
  }
}
