/** What a list of frames looks like on the wire. Nothing here mentions how either end
    works: it is the reference both chains are proved against. */
module Wire {
  import opened Common
  import opened Packet

  type Frame = f: seq<Byte> | |f| < U32

  /** Packet `k` of a frame exists: every frame has packet 0, even the empty one. */
  predicate HasPacket(f: Frame, k: nat) {
    k == 0 || k * MAX_SIZE < |f|
  }

  function PacketEnd(f: Frame, k: nat): nat {
    Min((k + 1) * MAX_SIZE, |f|)
  }

  function HeaderOf(f: Frame, number: Word16, k: nat): Fields
    requires HasPacket(f, k)
  {
    Fields(0, number, k, 0, 0, PacketEnd(f, k) - k * MAX_SIZE, |f|, 0)
  }

  /** The bytes of packet `k` and all later packets of the frame. */
  function PacketsFrom(f: Frame, number: Word16, k: nat): (s: seq<Byte>)
    requires HasPacket(f, k)
    ensures |s| >= HEADER_SIZE
    decreases |f| - k * MAX_SIZE, 1
  {
    Encode(HeaderOf(f, number, k)) + f[k * MAX_SIZE..PacketEnd(f, k)] + PacketsAfter(f, number, k)
  }

  function PacketsAfter(f: Frame, number: Word16, k: nat): (s: seq<Byte>)
    requires HasPacket(f, k)
    decreases |f| - k * MAX_SIZE, 0
  {
    if PacketEnd(f, k) < |f| then PacketsFrom(f, number, k + 1) else []
  }

  function EncodeFrame(f: Frame, number: Word16): seq<Byte> {
    PacketsFrom(f, number, 0)
  }

  function Advance(recall: Word16, n: nat): Word16 {
    (recall + n) % U16
  }

  lemma AdvanceAdds(recall: Word16, a: nat, b: nat)
    ensures Advance(Advance(recall, a), b) == Advance(recall, a + b)
  {
  }

  /** The stream of a whole connection whose sender last used packet number `recall`. */
  function EncodeAll(fs: seq<Frame>, recall: Word16): seq<Byte> {
    if fs == [] then []
    else EncodeFrame(fs[0], Advance(recall, 1)) + EncodeAll(fs[1..], Advance(recall, 1))
  }

  lemma {:induction false} EncodeAllAppend(fs: seq<Frame>, f: Frame, recall: Word16)
    ensures EncodeAll(fs + [f], recall) ==
            EncodeAll(fs, recall) + EncodeFrame(f, Advance(recall, |fs| + 1))
  {
    hide EncodeFrame, Advance;
    AdvanceAdds(recall, 1, |fs|);
    if fs == [] {
      assert fs + [f] == [f] && [f][1..] == [];
      AdvanceAdds(recall, 0, 1);
      assert EncodeFrame(f, Advance(recall, 1)) + [] == [] + EncodeFrame(f, Advance(recall, 1));
    } else {
      var first := EncodeFrame(fs[0], Advance(recall, 1));
      var rest, last := EncodeAll(fs[1..], Advance(recall, 1)), EncodeFrame(f, Advance(recall, |fs| + 1));
      assert (fs + [f])[1..] == fs[1..] + [f] && (fs + [f])[0] == fs[0];
      EncodeAllAppend(fs[1..], f, Advance(recall, 1));
      assert first + (rest + last) == (first + rest) + last;
    }
  }

  /** The first 24 bytes of a packet are its header, however they are sliced. */
  lemma PacketSlices(f: Frame, number: Word16, k: nat, last: nat, chunk: seq<Byte>)
    requires HasPacket(f, k) && last + |chunk| <= HEADER_SIZE
    requires chunk <= PacketsFrom(f, number, k)[last..]
    ensures chunk == Encode(HeaderOf(f, number, k))[last..last + |chunk|]
    ensures PacketsFrom(f, number, k)[last..] == chunk + PacketsFrom(f, number, k)[last + |chunk|..]
    ensures PacketsFrom(f, number, k)[HEADER_SIZE..] ==
            f[k * MAX_SIZE..PacketEnd(f, k)] + PacketsAfter(f, number, k)
  {
    hide Encode, PacketsAfter, PacketEnd;
    var packets, n := PacketsFrom(f, number, k), |chunk|;
    assert packets[..HEADER_SIZE] == Encode(HeaderOf(f, number, k));
    assert chunk == packets[last..][..n];
  }

  /** Number of packets of a frame of `n` bytes: at least one, otherwise n / 65536 rounded up. */
  function PacketCount(n: nat): nat {
    if n == 0 then 1 else (n + MAX_SIZE - 1) / MAX_SIZE
  }

  lemma {:induction false} PacketsFromLength(f: Frame, number: Word16, k: nat)
    requires HasPacket(f, k)
    ensures |PacketsFrom(f, number, k)| ==
            |f| - k * MAX_SIZE + HEADER_SIZE * (PacketCount(|f|) - k)
    decreases |f| - k * MAX_SIZE
  {
    hide Encode;
    if PacketEnd(f, k) < |f| {
      PacketsFromLength(f, number, k + 1);
    }
  }

  /** A frame of T < 2^32 bytes costs T plus one header for each of its max(1, ceil(T/65536))
      packets, and those are at most 65536 packets, so the 16-bit sequence number reaches its
      last packet without wrapping. */
  lemma PacketCountIsExact(f: Frame, number: Word16)
    ensures |EncodeFrame(f, number)| == |f| + HEADER_SIZE * PacketCount(|f|)
    ensures 1 <= PacketCount(|f|) <= U16
    ensures forall k: nat :: HasPacket(f, k) <==> k < PacketCount(|f|)
    ensures |f| == U32 - 1 ==> PacketCount(|f|) == U16
  {
    PacketsFromLength(f, number, 0);
  }

  /** A completion may move any positive part of what was asked, and zero only when zero was asked. */
  predicate Transfers(asked: int, n: nat) {
    n <= asked && (n == 0 ==> asked == 0)
  }

  /** A header that belongs to frame `f`: it names the frame's total and its own window
      [bytesWritten, bytesWritten + dataLength) ends where its packet ends and is empty only for
      the empty frame. */
  predicate Aligned(h: Header, f: Frame, number: Word16) {
    && h.Ok()
    && h.fields.packetNumber == number
    && h.fields.sessionNumber == 0 && h.fields.timestamp == 0
    && h.fields.totalBytes == |f|
    && HasPacket(f, h.fields.sequenceNumber)
    && h.fields.sequenceNumber * MAX_SIZE <= h.bytesWritten
    && h.bytesWritten + h.fields.dataLength == PacketEnd(f, h.fields.sequenceNumber)
    && (h.fields.dataLength == 0 ==> f == [])
  }

  /** The bytes left in the current packet's window. */
  function Window(h: Header, f: Frame, number: Word16): seq<Byte>
    requires Aligned(h, f, number)
  {
    f[h.bytesWritten..h.bytesWritten + h.fields.dataLength]
  }

  /** Arithmetic of a partial transfer: for an aligned header no subtraction underflows, no counter
      wraps, and the window stays inside the frame. */
  lemma AlignedOffset(h: Header, f: Frame, number: Word16, n: nat)
    requires Aligned(h, f, number) && n <= h.fields.dataLength
    ensures h.BytesWritten() == h.bytesWritten
    ensures h.bytesWritten + h.fields.dataLength <= |f|
    ensures h.OffsetPacket(n).bytesWritten == h.bytesWritten + n
    ensures h.OffsetPacket(n).fields == h.fields.(dataLength := h.fields.dataLength - n)
    ensures h.OffsetPacket(n).recall == h.recall
    ensures n < h.fields.dataLength ==> Aligned(h.OffsetPacket(n), f, number)
  {
  }

  /** A partial transfer takes the front of the window and leaves the rest of it. */
  lemma WindowSplits(h: Header, f: Frame, number: Word16, n: nat)
    requires Aligned(h, f, number) && n < h.fields.dataLength
    ensures Aligned(h.OffsetPacket(n), f, number)
    ensures h.bytesWritten + n <= |f|
    ensures Window(h, f, number) == f[h.bytesWritten..h.bytesWritten + n] + Window(h.OffsetPacket(n), f, number)
  {
    AlignedOffset(h, f, number, n);
  }

  /** Arithmetic of a completed packet: `IsFinished` answers whether it was the frame's last, and
      otherwise the next header is exactly the one the wire format asks for. */
  lemma AlignedFinish(h: Header, f: Frame, number: Word16)
    requires Aligned(h, f, number)
    ensures h.Counted().bytesWritten == PacketEnd(f, h.fields.sequenceNumber)
    ensures h.Finished() <==> PacketEnd(f, h.fields.sequenceNumber) == |f|
    ensures !h.Finished() ==>
              var k := h.fields.sequenceNumber + 1;
              var next := h.Counted().SetupNextHeader();
              && HasPacket(f, k)
              && next.fields == HeaderOf(f, number, k)
              && next.bytesWritten == k * MAX_SIZE
              && next.recall == h.recall
              && Aligned(next, f, number)
  {
  }

  lemma SetupIsAligned(h: Header, f: Frame)
    ensures h.SetupHeader(|f|).recall == Advance(h.recall, 1)
    ensures h.SetupHeader(|f|).bytesWritten == 0
    ensures h.SetupHeader(|f|).fields == HeaderOf(f, Advance(h.recall, 1), 0)
    ensures Aligned(h.SetupHeader(|f|), f, Advance(h.recall, 1))
  {
  }
}
