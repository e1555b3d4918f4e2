/** One TCP connection: a write chain, a FIFO byte stream, and a read chain, under an arbitrary schedule
    of posts and of partial sends and receives. */
module Connection {
  import opened Common
  import opened Packet
  import opened Wire
  import W = WriteChain
  import R = ReadChain

  /** `accepted` lists the frames queued on this connection, `wire` every byte sent on it, `consumed` how
      many of those the receiver has taken. `cap` is the size of a receive buffer. */
  datatype Conn = Conn(w: W.Writer, r: R.Reader, accepted: seq<Frame>, wire: seq<Byte>, consumed: nat,
                       recall: Word16, cap: nat)

  datatype Event =
    | Post(f: Frame)
    | Send(i: nat, n: nat)
    | Recv(n: nat, offer: R.Slot)

  /** A connection just made. Either end may come with a header left over from an earlier connection:
      `startConnection` resets the byte count and nothing else. */
  function Open(writerHeader: Header, readerHeader: Header, cap: nat): Conn {
    Conn(W.Writer(writerHeader, [], []), R.Reader(readerHeader.ResetHeader(), R.NoBuffer, R.RecvHeader(0), []),
         [], [], 0, writerHeader.recall, cap)
  }

  predicate Enabled(c: Conn, e: Event) {
    match e
    case Post(f) => |f| <= c.cap
    case Send(i, n) => W.CanSend(c.w, i, n)
    case Recv(n, offer) =>
      && c.consumed + n <= |c.wire|
      && R.CanReceive(c.r, c.wire[c.consumed..c.consumed + n], offer)
      && |offer.memory| == c.cap
  }

  function Step(c: Conn, e: Event): Conn
    requires Enabled(c, e)
  {
    match e
    case Post(f) => c.(w := W.Post(c.w, f), accepted := c.accepted + [f])
    case Send(i, n) => c.(w := W.SendDone(c.w, i, n), wire := c.wire + W.Sent(c.w, i, n))
    case Recv(n, offer) =>
      c.(r := R.RecvDone(c.r, c.wire[c.consumed..c.consumed + n], offer), consumed := c.consumed + n)
  }

  predicate Legal(c: Conn, es: seq<Event>)
    decreases |es|
  {
    es == [] || (Enabled(c, es[0]) && Legal(Step(c, es[0]), es[1..]))
  }

  function Run(c: Conn, es: seq<Event>): Conn
    requires Legal(c, es)
    decreases |es|
  {
    if es == [] then c else Run(Step(c, es[0]), es[1..])
  }

  /** The frames a schedule posts, in order. */
  function Posted(es: seq<Event>): seq<Frame> {
    if es == [] then [] else (if es[0].Post? then [es[0].f] else []) + Posted(es[1..])
  }

  // ---- Invariant ---------------------------------------------------------------------------

  ghost predicate Inv(c: Conn) {
    && W.SingleChain(c.w)
    && W.NextNumber(c.w) == Advance(c.recall, |c.accepted| + 1)
    && (forall f :: f in c.accepted ==> |f| <= c.cap)
    && R.InStep(c.r, c.accepted, c.recall, c.cap)
    && c.consumed <= |c.wire|
    && c.wire + W.Remaining(c.w) == EncodeAll(c.accepted, c.recall)
    && c.wire[..c.consumed] + R.Expected(c.r, c.accepted, c.recall, c.cap) == EncodeAll(c.accepted, c.recall)
  }

  lemma OpenInv(writerHeader: Header, readerHeader: Header, cap: nat)
    ensures Inv(Open(writerHeader, readerHeader, cap))
  {
  }

  lemma PostKeeps(c: Conn, f: Frame)
    requires Inv(c) && |f| <= c.cap
    ensures Inv(Step(c, Post(f)))
  {
    hide EncodeAll, EncodeFrame, W.SingleChain, W.Remaining, W.NextNumber, R.InStep, R.Expected, Advance;
    W.PostKeeps(c.w, f);
    R.MoreFrames(c.r, c.accepted, f, c.recall, c.cap);
    EncodeAllAppend(c.accepted, f, c.recall);
    AdvanceAdds(c.recall, |c.accepted| + 1, 1);
  }

  lemma SendKeeps(c: Conn, i: nat, n: nat)
    requires Inv(c) && W.CanSend(c.w, i, n)
    ensures Inv(Step(c, Send(i, n)))
  {
    hide EncodeAll, W.SingleChain, W.Remaining, W.NextNumber, W.SendDone, W.Sent, R.InStep, R.Expected, Advance;
    W.SendKeeps(c.w, i, n);
    var d := Step(c, Send(i, n));
    assert d.wire[..c.consumed] == c.wire[..c.consumed];
  }

  lemma Unread(wire: seq<Byte>, at: nat, want: seq<Byte>, rest: seq<Byte>)
    requires at <= |wire| && wire[..at] + want == wire + rest
    ensures want == wire[at..] + rest
  {
    assert want == (wire[..at] + want)[at..];
  }

  lemma RecvKeeps(c: Conn, n: nat, offer: R.Slot)
    requires Inv(c) && Enabled(c, Recv(n, offer))
    ensures Inv(Step(c, Recv(n, offer)))
  {
    hide EncodeAll, W.SingleChain, W.Remaining, W.NextNumber, R.InStep, R.Expected, R.RecvDone, Advance;
    var chunk, want := c.wire[c.consumed..c.consumed + n], R.Expected(c.r, c.accepted, c.recall, c.cap);
    Unread(c.wire, c.consumed, want, W.Remaining(c.w));
    assert chunk <= want;
    R.RecvKeeps(c.r, c.accepted, c.recall, c.cap, chunk, offer);
    assert c.wire[..c.consumed + n] == c.wire[..c.consumed] + chunk;
  }

  lemma StepKeeps(c: Conn, e: Event)
    requires Inv(c) && Enabled(c, e)
    ensures Inv(Step(c, e))
  {
    match e
    case Post(f) => PostKeeps(c, f);
    case Send(i, n) => SendKeeps(c, i, n);
    case Recv(n, offer) => RecvKeeps(c, n, offer);
  }

  lemma StepFrame(c: Conn, e: Event)
    requires Enabled(c, e)
    ensures Step(c, e).accepted == c.accepted + Posted([e])
    ensures Step(c, e).recall == c.recall && Step(c, e).cap == c.cap
  {
    assert Posted([e][1..]) == [];
  }

  lemma TransfersAcceptNothing(c: Conn, e: Event)
    requires Enabled(c, e) && !e.Post?
    ensures Step(c, e).accepted == c.accepted && Step(c, e).cap == c.cap
  {
  }

  lemma {:induction false} RunKeeps(c: Conn, es: seq<Event>)
    requires Inv(c) && Legal(c, es)
    ensures Inv(Run(c, es))
    decreases |es|
  {
    hide Inv, Step, Enabled;
    if es == [] {
    } else {
      StepKeeps(c, es[0]);
      RunKeeps(Step(c, es[0]), es[1..]);
    }
  }

  lemma PostedHead(es: seq<Event>)
    requires es != []
    ensures Posted(es) == Posted([es[0]]) + Posted(es[1..])
  {
    assert Posted([es[0]][1..]) == [];
  }

  lemma {:induction false} RunAccepts(c: Conn, es: seq<Event>)
    requires Legal(c, es)
    ensures Run(c, es).accepted == c.accepted + Posted(es)
    ensures Run(c, es).recall == c.recall && Run(c, es).cap == c.cap
    decreases |es|
  {
    hide Step, Enabled;
    if es == [] {
    } else {
      StepFrame(c, es[0]);
      RunAccepts(Step(c, es[0]), es[1..]);
      PostedHead(es);
    }
  }

  // ---- Whole runs --------------------------------------------------------------------------

  /** Nothing left to send, nothing left in flight, and no zero-length receive about to complete. */
  predicate Drained(c: Conn) {
    c.w.queue == [] && c.consumed == |c.wire| && R.Asked(c.r) > 0
  }

  lemma DrainedIsIdle(c: Conn)
    requires Inv(c) && Drained(c)
    ensures |c.r.log| == |c.accepted| && R.Idle(c.r) && c.w.pending == []
    ensures c.wire == EncodeAll(c.accepted, c.recall)
  {
    hide Encode, PacketsFrom, PacketsAfter, EncodeAll;
    assert c.wire[..c.consumed] == c.wire;
    assert R.Expected(c.r, c.accepted, c.recall, c.cap) == [];
  }

  lemma InvMeans(c: Conn)
    requires Inv(c)
    ensures R.Faithful(c.accepted, c.r.log) && c.r.op != R.Closed
    ensures |c.w.pending| == (if c.w.queue == [] then 0 else 1)
    ensures c.wire <= EncodeAll(c.accepted, c.recall)
    ensures Drained(c) ==> |c.r.log| == |c.accepted|
  {
    hide EncodeAll, R.Expected, W.Remaining;
    if Drained(c) {
      DrainedIsIdle(c);
    }
  }

  /** Framing round trip. For every schedule of posts and partial transfers on a fresh connection: the
      frames consumed are, in order and byte for byte, the frames posted, except those dropped whole; the
      reader never loses alignment and never closes; one write chain runs exactly while frames are queued;
      the wire carries a prefix of the reference encoding; and a drained connection has consumed every
      frame. */
  lemma FramingRoundTrip(writerHeader: Header, readerHeader: Header, cap: nat, es: seq<Event>)
    requires Legal(Open(writerHeader, readerHeader, cap), es)
    ensures var c := Run(Open(writerHeader, readerHeader, cap), es);
            && R.Faithful(Posted(es), c.r.log)
            && c.r.op != R.Closed
            && |c.w.pending| == (if c.w.queue == [] then 0 else 1)
            && c.wire <= EncodeAll(Posted(es), writerHeader.recall)
            && (Drained(c) ==> |c.r.log| == |Posted(es)|)
  {
    hide Inv, Step, Enabled, EncodeAll, R.Faithful;
    var o := Open(writerHeader, readerHeader, cap);
    OpenInv(writerHeader, readerHeader, cap);
    RunKeeps(o, es);
    RunAccepts(o, es);
    assert [] + Posted(es) == Posted(es);
    InvMeans(Run(o, es));
  }

  // ---- Liveness ----------------------------------------------------------------------------

  /** What is left to do: bytes to send, frames queued, bytes to consume, frames to account for. */
  ghost function Work(c: Conn): nat
    requires Inv(c)
  {
    |W.Remaining(c.w)| + |c.w.queue| +
    |R.Expected(c.r, c.accepted, c.recall, c.cap)| + (|c.accepted| - |c.r.log|)
  }

  lemma SendShrinksWork(c: Conn, i: nat, n: nat)
    requires Inv(c) && W.CanSend(c.w, i, n) && Inv(Step(c, Send(i, n)))
    ensures Work(Step(c, Send(i, n))) < Work(c)
  {
    hide EncodeAll, Advance, W.SingleChain, W.Remaining, W.NextNumber, W.SendDone, W.Sent, R.InStep, R.Expected;
    W.SendKeeps(c.w, i, n);
  }

  lemma RecvShrinksWork(c: Conn, n: nat, offer: R.Slot)
    requires Inv(c) && Enabled(c, Recv(n, offer)) && Inv(Step(c, Recv(n, offer)))
    ensures Work(Step(c, Recv(n, offer))) < Work(c)
  {
    hide EncodeAll, Advance, W.SingleChain, W.Remaining, W.NextNumber, R.InStep, R.Expected, R.RecvDone;
    var chunk, want := c.wire[c.consumed..c.consumed + n], R.Expected(c.r, c.accepted, c.recall, c.cap);
    Unread(c.wire, c.consumed, want, W.Remaining(c.w));
    assert chunk <= want;
    R.RecvKeeps(c.r, c.accepted, c.recall, c.cap, chunk, offer);
    R.RecvProgress(c.r, c.accepted, c.recall, c.cap, chunk, offer);
  }

  /** Every transfer, however small, leaves less to do. */
  lemma TransfersShrinkWork(c: Conn, e: Event)
    requires Inv(c) && Enabled(c, e) && !e.Post?
    ensures Inv(Step(c, e)) && Work(Step(c, e)) < Work(c)
  {
    hide Inv, Step, Work;
    StepKeeps(c, e);
    match e
    case Send(i, n) => SendShrinksWork(c, i, n);
    case Recv(n, offer) => RecvShrinksWork(c, n, offer);
  }

  /** A connection that has not drained can always move: the write chain can send, or the reader can take
      what is in flight. */
  lemma NeverStuck(c: Conn, offer: R.Slot) returns (e: Event)
    requires Inv(c) && !Drained(c) && offer != R.NoBuffer && |offer.memory| == c.cap
    ensures Enabled(c, e) && !e.Post?
    ensures e.Recv? ==> e.offer == offer
  {
    hide EncodeAll, Advance, W.Remaining, R.Expected, R.InStep, W.InBounds;
    if c.w.queue != [] {
      W.PendingIsSafe(c.w, 0);
      e := Send(0, W.Asked(c.w, 0));
    } else {
      R.PendingIsSafe(c.r, c.accepted, c.recall, c.cap);
      e := Recv(Min(R.Asked(c.r), |c.wire| - c.consumed), offer);
    }
  }

  /** So a connection left alone drains: no schedule of transfers is longer than the work there was. */
  lemma {:induction false} DrainsInTime(c: Conn, es: seq<Event>)
    requires Inv(c) && Legal(c, es) && forall e :: e in es ==> !e.Post?
    ensures |es| <= Work(c)
    decreases |es|
  {
    hide Inv, Step, Enabled, Work;
    if es == [] {
    } else {
      assert es[0] in es;
      TransfersShrinkWork(c, es[0]);
      DrainsInTime(Step(c, es[0]), es[1..]);
    }
  }

  // ---- Given buffers -----------------------------------------------------------------------

  /** A schedule in which the pool always has a buffer to offer. */
  predicate NeverLeaks(es: seq<Event>) {
    forall e :: e in es && e.Recv? ==> e.offer.Pooled?
  }

  ghost predicate NothingDropped(r: R.Reader) {
    !r.slot.Leaky? && R.Dropped !in r.log
  }

  lemma {:induction false} NeverLeaksKeeps(c: Conn, es: seq<Event>)
    requires Legal(c, es) && NeverLeaks(es) && NothingDropped(c.r)
    ensures NothingDropped(Run(c, es).r)
    decreases |es|
  {
    if es == [] {
    } else {
      assert es[0] in es;
      NeverLeaksKeeps(Step(c, es[0]), es[1..]);
    }
  }

  /** What one outcome hands to the manager. */
  function FrameOf(o: R.Outcome): seq<seq<Byte>> {
    if o.Delivered? then [o.frame] else []
  }

  /** The frames handed to the manager, in order. */
  function DeliveredFrames(log: seq<R.Outcome>): seq<seq<Byte>> {
    if log == [] then [] else FrameOf(log[0]) + DeliveredFrames(log[1..])
  }

  lemma {:induction false} DeliveredAppend(log: seq<R.Outcome>, o: R.Outcome)
    ensures DeliveredFrames(log + [o]) == DeliveredFrames(log) + FrameOf(o)
  {
    hide FrameOf;
    if log == [] {
      assert log + [o] == [o] && [o][1..] == [];
      assert FrameOf(o) + [] == [] + FrameOf(o);
    } else {
      assert (log + [o])[1..] == log[1..] + [o];
      DeliveredAppend(log[1..], o);
    }
  }

  lemma {:induction false} AllDelivered(fs: seq<Frame>, log: seq<R.Outcome>)
    requires R.Faithful(fs, log) && R.Dropped !in log
    ensures DeliveredFrames(log) == fs[..|log|]
    decreases |log|
  {
    if log == [] {
    } else {
      assert log[0] == R.Delivered(fs[0]);
      AllDelivered(fs[1..], log[1..]);
    }
  }

  /** Given a buffer for each frame, what is delivered is always a prefix of what was posted, and all of it
      once the connection has drained. */
  lemma DeliversEverything(writerHeader: Header, readerHeader: Header, cap: nat, es: seq<Event>)
    requires Legal(Open(writerHeader, readerHeader, cap), es) && NeverLeaks(es)
    ensures var c := Run(Open(writerHeader, readerHeader, cap), es);
            && DeliveredFrames(c.r.log) <= Posted(es)
            && (Drained(c) ==> DeliveredFrames(c.r.log) == Posted(es))
  {
    var o := Open(writerHeader, readerHeader, cap);
    FramingRoundTrip(writerHeader, readerHeader, cap, es);
    NeverLeaksKeeps(o, es);
    AllDelivered(Posted(es), Run(o, es).r.log);
  }
}
