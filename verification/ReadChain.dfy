/** The receive side of a link: one header filled in place, one receive buffer taken from a pool (or
    the shared leaky buffer when the pool is empty), one outstanding receive. `TcpCameraSession` and the
    headset's `TcpClient` both run this chain. */
module ReadChain {
  import opened Packet
  import opened Wire

  /** The receive buffer: none, the leaky one, or one owned from the pool. */
  datatype Slot = NoBuffer | Leaky(memory: seq<Byte>) | Pooled(memory: seq<Byte>)

  /** The outstanding `async_receive`, or a closed session. */
  datatype ReadOp = RecvHeader(last: nat) | RecvBody | Closed

  /** What became of a completely received frame. */
  datatype Outcome = Dropped | Delivered(frame: seq<Byte>)

  datatype Reader = Reader(header: Header, slot: Slot, op: ReadOp, log: seq<Outcome>)

  function Asked(r: Reader): int {
    match r.op
    case RecvHeader(last) => HEADER_SIZE - last
    case RecvBody => r.header.fields.dataLength
    case Closed => -1
  }

  /** The memory the outstanding receive writes. */
  predicate InBounds(r: Reader) {
    match r.op
    case RecvHeader(last) => last <= HEADER_SIZE
    case RecvBody => r.slot != NoBuffer && r.header.BytesWritten() + r.header.fields.dataLength <= |r.slot.memory|
    case Closed => false
  }

  /** `offer` is what the pool would hand out if this completion asks it for a buffer. */
  predicate CanReceive(r: Reader, chunk: seq<Byte>, offer: Slot) {
    InBounds(r) && Transfers(Asked(r), |chunk|) && offer != NoBuffer
  }

  function Store(memory: seq<Byte>, at: nat, chunk: seq<Byte>): seq<Byte>
    requires at + |chunk| <= |memory|
  {
    memory[..at] + chunk + memory[at + |chunk|..]
  }

  /** The completion handler of the outstanding receive. */
  function RecvDone(r: Reader, chunk: seq<Byte>, offer: Slot): Reader
    requires CanReceive(r, chunk, offer)
  {
    match r.op
    case RecvHeader(last) =>
      var h := r.header.Overlay(last, chunk);
      if last + |chunk| != HEADER_SIZE then r.(header := h, op := RecvHeader(last + |chunk|))
      else if h.Ok() then
        r.(header := h, op := RecvBody, slot := if r.slot == NoBuffer then offer else r.slot)
      else r.(header := h, op := Closed)
    case RecvBody =>
      var slot := r.slot.(memory := Store(r.slot.memory, r.header.BytesWritten(), chunk));
      if |chunk| != r.header.fields.dataLength then
        r.(header := r.header.OffsetPacket(|chunk|), slot := slot)
      else if !r.header.Finished() then
        r.(header := r.header.Counted(), slot := slot, op := RecvHeader(0))
      else
        var size := r.header.Counted().BytesWritten();
        CountedBound(r.header);
        var outcome := if slot.Pooled? then Delivered(slot.memory[..size]) else Dropped;
        Reader(r.header.Counted().ResetHeader(), NoBuffer, RecvHeader(0), r.log + [outcome])
  }

  // ---- Any header at all -------------------------------------------------------------------

  lemma ZeroBytes(s: seq<Byte>, i: nat)
    requires i + 4 <= |s|
    ensures Spelled(s, i, i + 4) == 0 <==> s[i] == s[i + 1] == s[i + 2] == s[i + 3] == 0
  {
    assert Spelled(s, i + 4, i + 4) == 0;
    assert Spelled(s, i + 2, i + 4) == s[i + 2] + 256 * (s[i + 3] as int);
  }

  /** What the last byte of a header decides, whatever was received: the reader goes on to the body, of the length
      that bytes 12 to 15 spell, exactly if the first and the last four bytes are zero; otherwise it closes.
      Before the last byte it just waits for more. */
  lemma HeaderDecides(r: Reader, chunk: seq<Byte>, offer: Slot)
    requires CanReceive(r, chunk, offer) && r.op.RecvHeader?
    ensures var raw := Encode(r.header.fields)[..r.op.last] + chunk;
            var d := RecvDone(r, chunk, offer);
            if |raw| < HEADER_SIZE then d.op == RecvHeader(|raw|) && d.slot == r.slot && d.log == r.log
            else
              && |raw| == HEADER_SIZE && d.log == r.log
              && Spelled(raw, 12, 16) == d.header.fields.dataLength
              && Spelled(raw, 16, 20) == d.header.fields.totalBytes
              && d.op == (if raw[0] == raw[1] == raw[2] == raw[3] == 0 && raw[20] == raw[21] == raw[22] == raw[23] == 0
                          then RecvBody else Closed)
  {
    hide Encode, Decode;
    var last, raw := r.op.last, Encode(r.header.fields)[..r.op.last] + chunk;
    OverlayBytes(r.header, last, chunk);
    if |raw| == HEADER_SIZE {
      var h := r.header.Overlay(last, chunk);
      assert Encode(h.fields) == raw;
      FieldsAt(h.fields);
      ZeroBytes(raw, 0);
      ZeroBytes(raw, 20);
    }
  }

  // ---- The invariant -----------------------------------------------------------------------

  /** Frame by frame, what was consumed is what was sent: either dropped whole or handed over byte for
      byte. */
  ghost predicate Faithful(fs: seq<Frame>, log: seq<Outcome>) {
    && |log| <= |fs|
    && forall i :: 0 <= i < |log| ==> log[i] == Dropped || log[i] == Delivered(fs[i])
  }

  ghost predicate Holds(slot: Slot, f: Frame, n: nat, cap: nat)
    requires n <= |f|
  {
    slot != NoBuffer && |f| <= |slot.memory| == cap && slot.memory[..n] == f[..n]
  }

  /** The reader is inside packet `k` of frame `f`, at a position its header accounts for. */
  ghost predicate Inside(r: Reader, f: Frame, number: Word16, cap: nat) {
    match r.op
    case RecvHeader(last) =>
      var k := r.header.bytesWritten / MAX_SIZE;
      && last < HEADER_SIZE
      && r.header.bytesWritten == k * MAX_SIZE && HasPacket(f, k)
      && Encode(r.header.fields)[..last] == Encode(HeaderOf(f, number, k))[..last]
      && (if k == 0 then r.slot == NoBuffer else Holds(r.slot, f, k * MAX_SIZE, cap))
    case RecvBody => Aligned(r.header, f, number) && Holds(r.slot, f, r.header.bytesWritten, cap)
    case Closed => false
  }

  ghost predicate Idle(r: Reader) {
    r.op == RecvHeader(0) && r.header.bytesWritten == 0 && r.slot == NoBuffer
  }

  /** The bytes of frame `f` still to come. */
  ghost function FrontExpected(r: Reader, f: Frame, number: Word16, cap: nat): seq<Byte>
    requires Inside(r, f, number, cap)
  {
    if r.op.RecvHeader? then
      PacketsFrom(f, number, r.header.bytesWritten / MAX_SIZE)[r.op.last..]
    else
      Window(r.header, f, number) + PacketsAfter(f, number, r.header.fields.sequenceNumber)
  }

  /** The reader is aligned with the stream of `fs`: it has accounted for whole frames and is inside the
      next one. */
  ghost predicate InStep(r: Reader, fs: seq<Frame>, recall: Word16, cap: nat) {
    && Faithful(fs, r.log)
    && (if |r.log| == |fs| then Idle(r) else Inside(r, fs[|r.log|], Advance(recall, |r.log| + 1), cap))
  }

  /** The rest of the stream, as the reader's state foretells it. */
  ghost function Expected(r: Reader, fs: seq<Frame>, recall: Word16, cap: nat): seq<Byte>
    requires InStep(r, fs, recall, cap)
  {
    if |r.log| == |fs| then []
    else
      FrontExpected(r, fs[|r.log|], Advance(recall, |r.log| + 1), cap) +
      EncodeAll(fs[|r.log| + 1..], Advance(recall, |r.log| + 1))
  }

  // ---- One completion ----------------------------------------------------------------------

  /** Header bytes accumulate in place, whatever the header held before. */
  lemma HeaderChunk(h: Header, want: Fields, last: nat, chunk: seq<Byte>)
    requires last + |chunk| <= HEADER_SIZE
    requires Encode(h.fields)[..last] == Encode(want)[..last]
    requires chunk == Encode(want)[last..last + |chunk|]
    ensures Encode(h.Overlay(last, chunk).fields)[..last + |chunk|] == Encode(want)[..last + |chunk|]
    ensures h.Overlay(last, chunk).bytesWritten == h.bytesWritten
    ensures last + |chunk| == HEADER_SIZE ==> h.Overlay(last, chunk).fields == want
  {
    hide Encode, Decode;
    OverlayBytes(h, last, chunk);
    var raw, n := Encode(h.Overlay(last, chunk).fields), last + |chunk|;
    assert Encode(want)[..last] + chunk == Encode(want)[..n];
    if n == HEADER_SIZE {
      assert raw[..n] == raw && Encode(want)[..n] == Encode(want);
      DecodeEncode(h.Overlay(last, chunk).fields);
      DecodeEncode(want);
    }
  }

  lemma HeaderComplete(h: Header, f: Frame, number: Word16, k: nat)
    requires HasPacket(f, k) && h.fields == HeaderOf(f, number, k) && h.bytesWritten == k * MAX_SIZE
    ensures Aligned(h, f, number)
  {
  }

  /** A header chunk keeps the reader inside the frame. */
  lemma RecvHeaderKeeps(r: Reader, f: Frame, number: Word16, cap: nat, chunk: seq<Byte>, offer: Slot, d: Reader)
    requires Inside(r, f, number, cap) && r.op.RecvHeader? && CanReceive(r, chunk, offer)
    requires d == RecvDone(r, chunk, offer)
    requires |f| <= cap && |offer.memory| == cap
    requires chunk <= FrontExpected(r, f, number, cap)
    ensures Inside(d, f, number, cap)
    ensures FrontExpected(r, f, number, cap) == chunk + FrontExpected(d, f, number, cap)
    ensures d.log == r.log
  {
    hide Encode, PacketsAfter, PacketsFrom, Aligned;
    var k, last, n := r.header.bytesWritten / MAX_SIZE, r.op.last, |chunk|;
    PacketSlices(f, number, k, last, chunk);
    HeaderChunk(r.header, HeaderOf(f, number, k), last, chunk);
    if last + n == HEADER_SIZE {
      HeaderComplete(r.header.Overlay(last, chunk), f, number, k);
    }
  }

  lemma StoreExtends(memory: seq<Byte>, f: Frame, at: nat, n: nat)
    requires at + n <= |f| <= |memory| && memory[..at] == f[..at]
    ensures Store(memory, at, f[at..at + n])[..at + n] == f[..at + n]
    ensures |Store(memory, at, f[at..at + n])| == |memory|
  {
  }

  /** Any part of the current window lands behind the bytes already held. */
  lemma RecvWindow(r: Reader, f: Frame, number: Word16, cap: nat, chunk: seq<Byte>, offer: Slot)
    requires Inside(r, f, number, cap) && r.op.RecvBody? && CanReceive(r, chunk, offer)
    requires chunk <= FrontExpected(r, f, number, cap)
    ensures r.header.BytesWritten() == r.header.bytesWritten
    ensures var at := r.header.bytesWritten;
            && at + |chunk| <= |f| && chunk == f[at..at + |chunk|]
            && Store(r.slot.memory, at, chunk)[..at + |chunk|] == f[..at + |chunk|]
            && |Store(r.slot.memory, at, chunk)| == cap
  {
    hide PacketsAfter, HasPacket;
    var at, n := r.header.bytesWritten, |chunk|;
    AlignedOffset(r.header, f, number, n);
    assert chunk == FrontExpected(r, f, number, cap)[..n] == Window(r.header, f, number)[..n] == f[at..at + n];
    StoreExtends(r.slot.memory, f, at, n);
  }

  /** A chunk that leaves the frame unfinished keeps the reader inside it. */
  lemma RecvBodyKeeps(r: Reader, f: Frame, number: Word16, cap: nat, chunk: seq<Byte>, offer: Slot, d: Reader)
    requires Inside(r, f, number, cap) && r.op.RecvBody? && CanReceive(r, chunk, offer)
    requires d == RecvDone(r, chunk, offer)
    requires chunk <= FrontExpected(r, f, number, cap)
    requires |chunk| != r.header.fields.dataLength || !r.header.Finished()
    ensures Inside(d, f, number, cap)
    ensures FrontExpected(r, f, number, cap) == chunk + FrontExpected(d, f, number, cap)
    ensures d.log == r.log
  {
    hide Encode, PacketsFrom;
    var at, n := r.header.bytesWritten, |chunk|;
    RecvWindow(r, f, number, cap, chunk, offer);
    AlignedOffset(r.header, f, number, n);
    if n != r.header.fields.dataLength {
      WindowSplits(r.header, f, number, n);
    } else {
      AlignedFinish(r.header, f, number);
      assert FrontExpected(d, f, number, cap) == PacketsAfter(f, number, r.header.fields.sequenceNumber);
    }
  }

  /** The chunk that finishes the frame delivers it whole, or drops it whole, and realigns the reader on
      the next header. */
  lemma RecvFrameFinishes(r: Reader, f: Frame, number: Word16, cap: nat, chunk: seq<Byte>, offer: Slot, d: Reader)
    requires Inside(r, f, number, cap) && r.op.RecvBody? && CanReceive(r, chunk, offer)
    requires d == RecvDone(r, chunk, offer)
    requires chunk <= FrontExpected(r, f, number, cap)
    requires |chunk| == r.header.fields.dataLength && r.header.Finished()
    ensures Idle(d)
    ensures FrontExpected(r, f, number, cap) == chunk
    ensures d.log == r.log + [if r.slot.Pooled? then Delivered(f) else Dropped]
  {
    hide PacketsFrom;
    RecvWindow(r, f, number, cap, chunk, offer);
    AlignedOffset(r.header, f, number, |chunk|);
    AlignedFinish(r.header, f, number);
    assert f[..|f|] == f;
  }

  /** At a frame boundary the whole next frame is expected. */
  lemma IdleExpects(r: Reader, fs: seq<Frame>, recall: Word16, cap: nat)
    requires Faithful(fs, r.log) && Idle(r)
    ensures InStep(r, fs, recall, cap)
    ensures Expected(r, fs, recall, cap) == EncodeAll(fs[|r.log|..], Advance(recall, |r.log|))
  {
    hide Encode, PacketsFrom, Advance;
    var i := |r.log|;
    AdvanceAdds(recall, i, 1);
    if i < |fs| {
      assert fs[i..][1..] == fs[i + 1..];
      var packets := PacketsFrom(fs[i], Advance(recall, i + 1), 0);
      assert packets[0..] == packets;
    }
  }

  /** A completion never reaches past the frame it started in. */
  lemma FrontCovers(r: Reader, f: Frame, number: Word16, cap: nat, chunk: seq<Byte>, offer: Slot, rest: seq<Byte>)
    requires Inside(r, f, number, cap) && CanReceive(r, chunk, offer)
    requires chunk <= FrontExpected(r, f, number, cap) + rest
    ensures chunk <= FrontExpected(r, f, number, cap)
  {
    hide Encode, PacketsAfter;
    assert |chunk| <= |FrontExpected(r, f, number, cap)|;
  }

  /** Every completion consumes exactly the bytes it reports and leaves the reader in step. */
  lemma RecvKeeps(r: Reader, fs: seq<Frame>, recall: Word16, cap: nat, chunk: seq<Byte>, offer: Slot)
    requires InStep(r, fs, recall, cap) && CanReceive(r, chunk, offer)
    requires forall f :: f in fs ==> |f| <= cap
    requires |offer.memory| == cap
    requires chunk <= Expected(r, fs, recall, cap)
    ensures InStep(RecvDone(r, chunk, offer), fs, recall, cap)
    ensures Expected(r, fs, recall, cap) == chunk + Expected(RecvDone(r, chunk, offer), fs, recall, cap)
  {
    hide Encode, PacketsFrom, PacketsAfter, EncodeAll, Inside, FrontExpected;
    var i, d := |r.log|, RecvDone(r, chunk, offer);
    var f, number := fs[i], Advance(recall, i + 1);
    FrontCovers(r, f, number, cap, chunk, offer, EncodeAll(fs[i + 1..], number));
    if r.op.RecvHeader? {
      RecvHeaderKeeps(r, f, number, cap, chunk, offer, d);
    } else if |chunk| == r.header.fields.dataLength && r.header.Finished() {
      RecvFrameFinishes(r, f, number, cap, chunk, offer, d);
      IdleExpects(d, fs, recall, cap);
    } else {
      RecvBodyKeeps(r, f, number, cap, chunk, offer, d);
    }
  }

  /** In step, the outstanding receive always writes inside its buffer. */
  lemma PendingIsSafe(r: Reader, fs: seq<Frame>, recall: Word16, cap: nat)
    requires InStep(r, fs, recall, cap)
    ensures InBounds(r) && Asked(r) >= 0
  {
    hide Encode;
    if r.op.RecvBody? {
      AlignedOffset(r.header, fs[|r.log|], Advance(recall, |r.log| + 1), 0);
    }
  }

  /** Every completion makes progress: it consumes a byte, or it finishes an empty frame. */
  lemma RecvProgress(r: Reader, fs: seq<Frame>, recall: Word16, cap: nat, chunk: seq<Byte>, offer: Slot)
    requires InStep(r, fs, recall, cap) && CanReceive(r, chunk, offer)
    ensures |RecvDone(r, chunk, offer).log| >= |r.log|
    ensures chunk == [] ==> |RecvDone(r, chunk, offer).log| > |r.log|
  {
    hide Encode, Header.Overlay, Header.OffsetPacket;
    if r.op.RecvBody? {
      AlignedFinish(r.header, fs[|r.log|], Advance(recall, |r.log| + 1));
    }
  }

  /** Frames posted later only extend what the reader expects. */
  lemma MoreFrames(r: Reader, fs: seq<Frame>, f: Frame, recall: Word16, cap: nat)
    requires InStep(r, fs, recall, cap)
    ensures InStep(r, fs + [f], recall, cap)
    ensures Expected(r, fs + [f], recall, cap) ==
            Expected(r, fs, recall, cap) + EncodeFrame(f, Advance(recall, |fs| + 1))
  {
    hide Encode, PacketsFrom, PacketsAfter, EncodeFrame, Inside, FrontExpected, Advance;
    var i, number := |r.log|, Advance(recall, |r.log| + 1);
    if i == |fs| {
      IdleExpects(r, fs + [f], recall, cap);
      assert (fs + [f])[i..] == [] + [f];
      EncodeAllAppend([], f, Advance(recall, i));
      AdvanceAdds(recall, i, 1);
    } else {
      assert (fs + [f])[i + 1..] == fs[i + 1..] + [f];
      EncodeAllAppend(fs[i + 1..], f, number);
      AdvanceAdds(recall, i + 1, |fs[i + 1..]| + 1);
    }
  }
}
