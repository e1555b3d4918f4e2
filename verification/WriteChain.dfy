/** The send side of a link: a queue of frames, one header, and the asynchronous sends in
    flight. `TcpHeadsetSession` and the camera's `TcpClient` both run this chain. */
module WriteChain {
  import opened Common
  import opened Packet
  import opened Wire

  /** An outstanding `async_send`. */
  datatype WriteOp = SendHeader(last: nat) | SendBody

  /** Nothing in this type limits `pending` to one entry: that is proved. */
  datatype Writer = Writer(header: Header, queue: seq<Frame>, pending: seq<WriteOp>)

  function Post(w: Writer, f: Frame): Writer {
    if w.queue == [] then
      Writer(w.header.SetupHeader(|f|), [f], w.pending + [SendHeader(0)])
    else
      w.(queue := w.queue + [f])
  }

  /** How many bytes the outstanding send was asked to move. */
  function Asked(w: Writer, i: nat): int
    requires i < |w.pending|
  {
    match w.pending[i]
    case SendHeader(last) => HEADER_SIZE - last
    case SendBody => w.header.fields.dataLength
  }

  /** The memory the outstanding send reads: the header's raw bytes, or the front frame. */
  predicate InBounds(w: Writer, i: nat)
    requires i < |w.pending|
  {
    match w.pending[i]
    case SendHeader(last) => last <= HEADER_SIZE
    case SendBody => w.queue != [] && w.header.BytesWritten() + w.header.fields.dataLength <= |w.queue[0]|
  }

  predicate CanSend(w: Writer, i: nat, n: nat) {
    i < |w.pending| && InBounds(w, i) && Transfers(Asked(w, i), n)
  }

  /** The bytes a completion of `n` puts on the wire. */
  function Sent(w: Writer, i: nat, n: nat): seq<Byte>
    requires CanSend(w, i, n)
  {
    match w.pending[i]
    case SendHeader(last) => Encode(w.header.fields)[last..last + n]
    case SendBody => w.queue[0][w.header.BytesWritten()..w.header.BytesWritten() + n]
  }

  /** The completion handler of outstanding send `i`, reporting `n` bytes. */
  function SendDone(w: Writer, i: nat, n: nat): Writer
    requires CanSend(w, i, n)
  {
    match w.pending[i]
    case SendHeader(last) =>
      w.(pending := w.pending[i := if last + n == HEADER_SIZE then SendBody else SendHeader(last + n)])
    case SendBody =>
      if n != w.header.fields.dataLength then
        w.(header := w.header.OffsetPacket(n))
      else if !w.header.Finished() then
        w.(header := w.header.Counted().SetupNextHeader(), pending := w.pending[i := SendHeader(0)])
      else if |w.queue| == 1 then
        Writer(w.header.Counted(), [], RemoveAt(w.pending, i))
      else
        Writer(w.header.Counted().SetupHeader(|w.queue[1]|), w.queue[1..], w.pending[i := SendHeader(0)])
  }

  // ---- The invariant -----------------------------------------------------------------------

  /** A chain is active exactly when the queue is non-empty, there is then one chain, and its header
      belongs to the front frame. */
  ghost predicate SingleChain(w: Writer) {
    && |w.pending| == (if w.queue == [] then 0 else 1)
    && (w.queue != [] ==>
          && Aligned(w.header, w.queue[0], w.header.recall)
          && (w.pending[0].SendHeader? ==>
                && w.pending[0].last < HEADER_SIZE
                && w.header.bytesWritten == w.header.fields.sequenceNumber * MAX_SIZE))
  }

  /** What is left of the front frame after the header in hand. */
  ghost function BodyRemaining(w: Writer): seq<Byte>
    requires SingleChain(w) && w.queue != []
  {
    Window(w.header, w.queue[0], w.header.recall) +
    PacketsAfter(w.queue[0], w.header.recall, w.header.fields.sequenceNumber)
  }

  /** The bytes the chain has yet to put on the wire for the front frame. */
  ghost function FrontRemaining(w: Writer): seq<Byte>
    requires SingleChain(w) && w.queue != []
  {
    if w.pending[0].SendHeader? then Encode(w.header.fields)[w.pending[0].last..] + BodyRemaining(w)
    else BodyRemaining(w)
  }

  ghost function Remaining(w: Writer): seq<Byte>
    requires SingleChain(w)
  {
    if w.queue == [] then [] else FrontRemaining(w) + EncodeAll(w.queue[1..], w.header.recall)
  }

  /** The packet number the next frame to be posted will carry. */
  ghost function NextNumber(w: Writer): Word16 {
    Advance(w.header.recall, if w.queue == [] then 1 else |w.queue|)
  }

  /** A chain about to send the first byte of a packet still owes that packet and the later ones. */
  lemma FreshPacket(w: Writer, k: nat)
    requires SingleChain(w) && w.queue != [] && w.pending[0] == SendHeader(0)
    requires k == w.header.fields.sequenceNumber
    ensures w.header.fields == HeaderOf(w.queue[0], w.header.recall, k)
    ensures FrontRemaining(w) == PacketsFrom(w.queue[0], w.header.recall, k)
  {
    hide Encode;
    var raw := Encode(w.header.fields);
    assert raw[0..] == raw;
  }

  lemma PostBehind(w: Writer, f: Frame)
    requires SingleChain(w) && w.queue != []
    ensures SingleChain(Post(w, f))
    ensures Remaining(Post(w, f)) == Remaining(w) + EncodeFrame(f, NextNumber(w))
  {
    hide Encode, PacketsFrom, PacketsAfter, EncodeFrame, EncodeAll;
    var p := Post(w, f);
    assert FrontRemaining(p) == FrontRemaining(w);
    assert p.queue[1..] == w.queue[1..] + [f];
    EncodeAllAppend(w.queue[1..], f, w.header.recall);
  }

  lemma PostKeeps(w: Writer, f: Frame)
    requires SingleChain(w)
    ensures SingleChain(Post(w, f))
    ensures Remaining(Post(w, f)) == Remaining(w) + EncodeFrame(f, NextNumber(w))
    ensures NextNumber(Post(w, f)) == Advance(NextNumber(w), 1)
  {
    hide Encode, PacketsFrom, PacketsAfter;
    SetupIsAligned(w.header, f);
    var p := Post(w, f);
    if w.queue == [] {
      FreshPacket(p, 0);
      assert EncodeAll(p.queue[1..], p.header.recall) == [];
    } else {
      PostBehind(w, f);
    }
  }

  lemma Regroup<T>(x: seq<T>, y: seq<T>, r: seq<T>, e: seq<T>)
    ensures ((x + y) + r) + e == x + ((y + r) + e)
  {
  }

  lemma SendHeaderKeeps(w: Writer, n: nat, d: Writer)
    requires SingleChain(w) && CanSend(w, 0, n) && d == SendDone(w, 0, n) && w.pending[0].SendHeader?
    ensures SingleChain(d)
    ensures n > 0 && d.queue == w.queue && d.header == w.header
    ensures Sent(w, 0, n) + Remaining(d) == Remaining(w)
  {
    hide Encode, PacketsAfter, EncodeAll, Aligned, Window;
    var raw, last := Encode(w.header.fields), w.pending[0].last;
    assert BodyRemaining(d) == BodyRemaining(w);
    assert raw[last..] == raw[last..last + n] + raw[last + n..];
    if last + n == HEADER_SIZE {
      assert raw[last..] == raw[last..last + n];
    } else {
      Regroup(raw[last..last + n], raw[last + n..], BodyRemaining(w), EncodeAll(w.queue[1..], w.header.recall));
    }
  }

  lemma SendPartKeeps(w: Writer, n: nat, d: Writer)
    requires SingleChain(w) && CanSend(w, 0, n) && d == SendDone(w, 0, n)
    requires w.pending[0].SendBody? && n != w.header.fields.dataLength
    ensures SingleChain(d)
    ensures n > 0 && d.queue == w.queue && d.header.recall == w.header.recall
    ensures Sent(w, 0, n) + Remaining(d) == Remaining(w)
  {
    hide Encode, PacketsFrom, PacketsAfter, EncodeAll, EncodeFrame, Aligned, Window;
    hide Header.OffsetPacket, Header.Finished, Header.Counted, Header.SetupHeader, Header.SetupNextHeader;
    var f, number, k := w.queue[0], w.header.recall, w.header.fields.sequenceNumber;
    AlignedOffset(w.header, f, number, n);
    WindowSplits(w.header, f, number, n);
    assert d.header == w.header.OffsetPacket(n) && d.header.fields.sequenceNumber == k;
    var sent, rest, later := Sent(w, 0, n), Window(d.header, f, number), EncodeAll(w.queue[1..], number);
    assert Remaining(w) == ((sent + rest) + PacketsAfter(f, number, k)) + later;
    assert Remaining(d) == (rest + PacketsAfter(f, number, k)) + later;
    Regroup(sent, rest, PacketsAfter(f, number, k), later);
  }

  lemma SendMiddleKeeps(w: Writer, n: nat, d: Writer)
    requires SingleChain(w) && CanSend(w, 0, n) && d == SendDone(w, 0, n)
    requires w.pending[0].SendBody? && n == w.header.fields.dataLength && !w.header.Finished()
    ensures SingleChain(d)
    ensures d.queue == w.queue && d.header.recall == w.header.recall
    ensures Sent(w, 0, n) + Remaining(d) == Remaining(w)
  {
    hide Encode, PacketsFrom, EncodeAll;
    var k := w.header.fields.sequenceNumber;
    AlignedOffset(w.header, w.queue[0], w.header.recall, n);
    AlignedFinish(w.header, w.queue[0], w.header.recall);
    FreshPacket(d, k + 1);
    assert PacketsAfter(w.queue[0], w.header.recall, k) == FrontRemaining(d);
    assert Window(w.header, w.queue[0], w.header.recall) == Sent(w, 0, n);
  }

  lemma SendFrameKeeps(w: Writer, n: nat, d: Writer)
    requires SingleChain(w) && CanSend(w, 0, n) && d == SendDone(w, 0, n)
    requires w.pending[0].SendBody? && n == w.header.fields.dataLength && w.header.Finished()
    ensures SingleChain(d)
    ensures Sent(w, 0, n) + Remaining(d) == Remaining(w)
    ensures NextNumber(d) == NextNumber(w)
    ensures |d.queue| == |w.queue| - 1
  {
    hide Encode, PacketsFrom;
    AlignedOffset(w.header, w.queue[0], w.header.recall, n);
    AlignedFinish(w.header, w.queue[0], w.header.recall);
    assert FrontRemaining(w) == Sent(w, 0, n);
    if |w.queue| > 1 {
      SetupIsAligned(w.header.Counted(), w.queue[1]);
      assert w.queue[1..][1..] == d.queue[1..];
      FreshPacket(d, 0);
    }
  }

  lemma SendPacketKeeps(w: Writer, n: nat, d: Writer)
    requires SingleChain(w) && CanSend(w, 0, n) && d == SendDone(w, 0, n)
    requires w.pending[0].SendBody? && n == w.header.fields.dataLength
    ensures SingleChain(d)
    ensures Sent(w, 0, n) + Remaining(d) == Remaining(w)
    ensures NextNumber(d) == NextNumber(w)
    ensures n > 0 || |d.queue| < |w.queue|
    ensures |d.queue| <= |w.queue|
  {
    hide Encode, PacketsFrom, PacketsAfter, EncodeAll, Window;
    AlignedOffset(w.header, w.queue[0], w.header.recall, n);
    if w.header.Finished() {
      SendFrameKeeps(w, n, d);
    } else {
      SendMiddleKeeps(w, n, d);
    }
  }

  /** Every completion moves the stream on by exactly the bytes it reports and strictly shrinks what is
      left to do, so a chain of partial sends always ends. */
  lemma SendKeeps(w: Writer, i: nat, n: nat)
    requires SingleChain(w) && CanSend(w, i, n)
    ensures SingleChain(SendDone(w, i, n))
    ensures Sent(w, i, n) + Remaining(SendDone(w, i, n)) == Remaining(w)
    ensures NextNumber(SendDone(w, i, n)) == NextNumber(w)
    ensures |Remaining(SendDone(w, i, n))| + |SendDone(w, i, n).queue| < |Remaining(w)| + |w.queue|
  {
    hide Encode, PacketsFrom, PacketsAfter, EncodeAll, EncodeFrame;
    if w.pending[i].SendHeader? {
      SendHeaderKeeps(w, n, SendDone(w, i, n));
    } else if n != w.header.fields.dataLength {
      SendPartKeeps(w, n, SendDone(w, i, n));
    } else {
      SendPacketKeeps(w, n, SendDone(w, i, n));
    }
  }

  /** Within the invariant every outstanding send reads inside its buffer and can complete. */
  lemma PendingIsSafe(w: Writer, i: nat)
    requires SingleChain(w) && i < |w.pending|
    ensures i == 0 && InBounds(w, 0) && Asked(w, 0) >= 0
    ensures CanSend(w, 0, Asked(w, 0))
  {
    AlignedOffset(w.header, w.queue[0], w.header.recall, 0);
  }
}
