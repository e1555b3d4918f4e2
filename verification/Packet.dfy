/** The 24-byte packet header shared by both ends of a TCP link, with the unsigned
    wrap-around of every field written out. */
module Packet {
  import opened Common

  const MAX_SIZE: nat := 65536
  const HEADER_SIZE: nat := 24
  const U16: nat := 0x1_0000
  const U32: nat := 0x1_0000_0000
  const U64: nat := 0x1_0000_0000_0000_0000

  type Byte = x: int | 0 <= x < 256
  type Word16 = x: int | 0 <= x < U16
  type Word32 = x: int | 0 <= x < U32
  type Word64 = x: int | 0 <= x < U64

  /** The fields that overlay the 24 raw bytes. */
  datatype Fields = Fields(
    front: Word32, packetNumber: Word16, sequenceNumber: Word16, sessionNumber: Word16,
    timestamp: Word16, dataLength: Word32, totalBytes: Word32, back: Word32)

  function Le16(x: Word16): (s: seq<Byte>)
    ensures |s| == 2
  {
    [x % 256, x / 256]
  }

  function Le32(x: Word32): (s: seq<Byte>)
    ensures |s| == 4
  {
    [x % 256, x / 256 % 256, x / 256 / 256 % 256, x / 256 / 256 / 256]
  }

  function Get16(s: seq<Byte>): Word16
    requires |s| == 2
  {
    s[0] + 256 * (s[1] as int)
  }

  function Get32(s: seq<Byte>): Word32
    requires |s| == 4
  {
    s[0] + 256 * (s[1] as int + 256 * (s[2] as int + 256 * (s[3] as int)))
  }

  /** The field view read as raw bytes (little endian, no padding). */
  function Encode(f: Fields): (s: seq<Byte>)
    ensures |s| == HEADER_SIZE
  {
    Le32(f.front) + Le16(f.packetNumber) + Le16(f.sequenceNumber) + Le16(f.sessionNumber) +
    Le16(f.timestamp) + Le32(f.dataLength) + Le32(f.totalBytes) + Le32(f.back)
  }

  /** The raw bytes read as fields. */
  function Decode(s: seq<Byte>): Fields
    requires |s| == HEADER_SIZE
  {
    Fields(Get32(s[0..4]), Get16(s[4..6]), Get16(s[6..8]), Get16(s[8..10]),
           Get16(s[10..12]), Get32(s[12..16]), Get32(s[16..20]), Get32(s[20..24]))
  }

  /** The number that bytes `i` .. `j - 1` spell, lowest byte first. */
  function Spelled(s: seq<Byte>, i: nat, j: nat): int
    requires i <= j <= |s|
    decreases j - i
  {
    if i == j then 0 else s[i] + 256 * Spelled(s, i + 1, j)
  }

  lemma Read32(x: Word32)
    ensures Get32(Le32(x)) == x
  {
  }

  lemma Spelled16(s: seq<Byte>, i: nat, x: Word16)
    requires i + 2 <= |s| && s[i..i + 2] == Le16(x)
    ensures Spelled(s, i, i + 2) == x
  {
    assert s[i] == s[i..i + 2][0] && s[i + 1] == s[i..i + 2][1];
    assert Spelled(s, i + 2, i + 2) == 0;
  }

  lemma Spelled32(s: seq<Byte>, i: nat, x: Word32)
    requires i + 4 <= |s| && s[i..i + 4] == Le32(x)
    ensures Spelled(s, i, i + 4) == x
  {
    var t := s[i..i + 4];
    assert s[i] == t[0] && s[i + 1] == t[1] && s[i + 2] == t[2] && s[i + 3] == t[3];
    assert Spelled(s, i + 4, i + 4) == 0;
    assert Spelled(s, i + 2, i + 4) == t[2] + 256 * (t[3] as int);
    assert Spelled(s, i, i + 4) == Get32(t);
    Read32(x);
  }

  /** The layout on the wire: which bytes spell which field. */
  lemma FieldsAt(f: Fields)
    ensures var s := Encode(f);
            && Spelled(s, 0, 4) == f.front && Spelled(s, 4, 6) == f.packetNumber
            && Spelled(s, 6, 8) == f.sequenceNumber && Spelled(s, 8, 10) == f.sessionNumber
            && Spelled(s, 10, 12) == f.timestamp && Spelled(s, 12, 16) == f.dataLength
            && Spelled(s, 16, 20) == f.totalBytes && Spelled(s, 20, 24) == f.back
  {
    var s := Encode(f);
    assert s[0..4] == Le32(f.front);
    assert s[4..6] == Le16(f.packetNumber);
    assert s[6..8] == Le16(f.sequenceNumber);
    assert s[8..10] == Le16(f.sessionNumber);
    assert s[10..12] == Le16(f.timestamp);
    assert s[12..16] == Le32(f.dataLength);
    assert s[16..20] == Le32(f.totalBytes);
    assert s[20..24] == Le32(f.back);
    hide Encode, Spelled, Le16, Le32;
    Spelled32(s, 0, f.front);
    Spelled16(s, 4, f.packetNumber);
    Spelled16(s, 6, f.sequenceNumber);
    Spelled16(s, 8, f.sessionNumber);
    Spelled16(s, 10, f.timestamp);
    Spelled32(s, 12, f.dataLength);
    Spelled32(s, 16, f.totalBytes);
    Spelled32(s, 20, f.back);
  }

  lemma Write32(s: seq<Byte>)
    requires |s| == 4
    ensures Le32(Get32(s)) == s
  {
    var v: int, a: int, b: int, c: int := Get32(s), s[1], s[2], s[3];
    assert v / 256 == a + 256 * (b + 256 * c);
    assert v / 256 / 256 == b + 256 * c;
  }

  /** Writing the fields and reading the bytes back loses nothing. */
  lemma DecodeEncode(f: Fields)
    ensures Decode(Encode(f)) == f
  {
    var s := Encode(f);
    assert s[0..4] == Le32(f.front);
    assert s[4..6] == Le16(f.packetNumber);
    assert s[6..8] == Le16(f.sequenceNumber);
    assert s[8..10] == Le16(f.sessionNumber);
    assert s[10..12] == Le16(f.timestamp);
    assert s[12..16] == Le32(f.dataLength);
    assert s[16..20] == Le32(f.totalBytes);
    assert s[20..24] == Le32(f.back);
    forall x: Word32 {
      Read32(x);
    }
  }

  lemma DecodeThenEncode(s: seq<Byte>)
    requires |s| == HEADER_SIZE
    ensures Encode(Decode(s)) == s
  {
    forall t: seq<Byte> | |t| == 4 {
      Write32(t);
    }
    assert forall t: seq<Byte> | |t| == 2 :: Le16(Get16(t)) == t;
    assert s == s[0..4] + s[4..6] + s[6..8] + s[8..10] + s[10..12] + s[12..16] + s[16..20] + s[20..24];
  }

  /** Every 24-byte string is the image of exactly one field view. */
  lemma EncodeDecode(s: seq<Byte>)
    requires |s| == HEADER_SIZE
    ensures Encode(Decode(s)) == s
    ensures forall f: Fields :: Encode(f) == s <==> f == Decode(s)
  {
    DecodeThenEncode(s);
    forall f: Fields | Encode(f) == s
      ensures f == Decode(s)
    {
      DecodeEncode(f);
    }
  }

  /** One end's header state: the overlaid bytes plus the two private counters. */
  datatype Header = Header(fields: Fields, bytesWritten: Word64, recall: Word16) {

    /** The 32-bit result of the accessor of the same name. */
    function BytesWritten(): Word32 {
      bytesWritten % U32
    }

    function OffsetPacket(n: nat): Header {
      this.(fields := fields.(dataLength := (fields.dataLength - n) % U32),
            bytesWritten := (bytesWritten + n) % U64)
    }

    /** The state after `IsFinished`, which also counts the bytes just moved. */
    function Counted(): Header {
      this.(bytesWritten := (bytesWritten + fields.dataLength) % U64)
    }

    predicate Finished() {
      Counted().bytesWritten >= fields.totalBytes
    }

    function SetupHeader(total: Word64): Header {
      var next := (recall + 1) % U16;
      Header(Fields(0, next, 0, 0, 0, Min(total, MAX_SIZE), total % U32, 0), 0, next)
    }

    function SetupNextHeader(): Header {
      this.(fields := fields.(sequenceNumber := (fields.sequenceNumber + 1) % U16,
                              dataLength := Min((fields.totalBytes - bytesWritten) % U64, MAX_SIZE)))
    }

    predicate Ok() {
      fields.front == 0 && fields.back == 0
    }

    function ResetHeader(): Header {
      this.(bytesWritten := 0)
    }

    /** A receive that lands `chunk` at byte `last` of the raw view. */
    function Overlay(last: nat, chunk: seq<Byte>): Header
      requires last + |chunk| <= HEADER_SIZE
    {
      var raw := Encode(fields);
      this.(fields := Decode(raw[..last] + chunk + raw[last + |chunk|..]))
    }
  }

  const ZERO_HEADER: Header := Header(Fields(0, 0, 0, 0, 0, 0, 0, 0), 0, 0)

  /** Counting a packet never moves the 32-bit position past the end of its window. */
  lemma CountedBound(h: Header)
    ensures h.Counted().BytesWritten() <= h.BytesWritten() + h.fields.dataLength
  {
    var t, q := h.bytesWritten + h.fields.dataLength, h.bytesWritten / U32;
    assert t == U32 * q + (h.BytesWritten() + h.fields.dataLength);
    if t >= U64 {
      assert t % U64 == t - U64;
    }
  }

  /** Overlaying replaces exactly the bytes received. */
  lemma OverlayBytes(h: Header, last: nat, chunk: seq<Byte>)
    requires last + |chunk| <= HEADER_SIZE
    ensures Encode(h.Overlay(last, chunk).fields) ==
            Encode(h.fields)[..last] + chunk + Encode(h.fields)[last + |chunk|..]
    ensures h.Overlay(last, chunk).bytesWritten == h.bytesWritten
  {
    var raw := Encode(h.fields);
    EncodeDecode(raw[..last] + chunk + raw[last + |chunk|..]);
  }

  /** The header object that the sessions embed and mutate. */
  class PacketHeader {
    var fields: Fields
    var bytesWritten: Word64
    var recall: Word16

    ghost function View(): Header
      reads this
    {
      Header(fields, bytesWritten, recall)
    }

    constructor ()
      ensures View() == ZERO_HEADER
    {
      fields, bytesWritten, recall := Fields(0, 0, 0, 0, 0, 0, 0, 0), 0, 0;
    }

    method OffsetPacket(n: nat)
      modifies this
      ensures View() == old(View()).OffsetPacket(n)
    {
      fields := fields.(dataLength := (fields.dataLength - n) % U32);
      bytesWritten := (bytesWritten + n) % U64;
    }

    method IsFinished() returns (finished: bool)
      modifies this
      ensures View() == old(View()).Counted()
      ensures finished == old(View()).Finished()
    {
      bytesWritten := (bytesWritten + fields.dataLength) % U64;
      finished := bytesWritten >= fields.totalBytes;
    }

    method SetupHeader(total: Word64)
      modifies this
      ensures View() == old(View()).SetupHeader(total)
    {
      recall := (recall + 1) % U16;
      fields := Fields(0, recall, 0, 0, 0, Min(total, MAX_SIZE), total % U32, 0);
      bytesWritten := 0;
    }

    method SetupNextHeader()
      modifies this
      ensures View() == old(View()).SetupNextHeader()
    {
      fields := fields.(sequenceNumber := (fields.sequenceNumber + 1) % U16);
      fields := fields.(dataLength := Min((fields.totalBytes - bytesWritten) % U64, MAX_SIZE));
    }

    method ResetHeader()
      modifies this
      ensures View() == old(View()).ResetHeader()
    {
      bytesWritten := 0;
    }

    /** The socket stores received bytes straight into the raw view. */
    method Receive(last: nat, chunk: seq<Byte>)
      requires last + |chunk| <= HEADER_SIZE
      modifies this
      ensures View() == old(View()).Overlay(last, chunk)
    {
      var raw := Encode(fields);
      fields := Decode(raw[..last] + chunk + raw[last + |chunk|..]);
    }
  }
}
