/** The session objects, one method per public call or completion handler, each proved to make exactly one
    step of the write or read chain. `Links` drives them through whole schedules. */
module Sessions {
  import opened Common
  import opened Packet
  import opened Wire
  import opened Pools
  import W = WriteChain
  import R = ReadChain

  // ---- Copy buffers ------------------------------------------------------------------------

  /** Every copy buffer is either free or queued, once. */
  ghost predicate Queues(p: Pool, queue: seq<Buffer>, slots: nat) {
    && Distinct(p.free) && Distinct(queue) && |p.free| + |queue| == slots && p.leaky == None
    && (forall b :: b in p.free ==> b !in p.refs)
    && (forall b :: b in p.refs <==> b in queue)
    && (forall b :: b in p.refs ==> p.refs[b] == 1)
  }

  lemma FreshQueues(slots: nat)
    ensures Queues(Fresh(slots, false), [], slots)
  {
  }

  lemma CheckoutQueues(p: Pool, queue: seq<Buffer>, slots: nat)
    requires Queues(p, queue, slots) && p.free != []
    ensures p.free[0] !in queue && Queues(Take(p), queue + [p.free[0]], slots)
  {
    assert p.free == [p.free[0]] + p.free[1..] && p.free[0] in p.free;
  }

  lemma DropQueues(p: Pool, queue: seq<Buffer>, slots: nat)
    requires Queues(p, queue, slots) && queue != []
    ensures Queues(Release(p, queue[0]), queue[1..], slots)
  {
    var b := queue[0];
    assert queue == [b] + queue[1..] && b in queue;
    assert Release(p, b).refs.Keys == p.refs.Keys - {b};
  }

  function FramesOf(memory: map<Buffer, Frame>, queue: seq<Buffer>): seq<Frame>
    requires forall b :: b in queue ==> b in memory
  {
    seq(|queue|, i requires 0 <= i < |queue| => assert queue[i] in queue; memory[queue[i]])
  }

  /** Filling a buffer that is not queued and queueing it adds its frame and touches no other. */
  lemma FramesAppend(memory: map<Buffer, Frame>, queue: seq<Buffer>, b: Buffer, f: Frame)
    requires b !in queue && forall x :: x in queue ==> x in memory
    ensures forall x :: x in queue + [b] ==> x in memory[b := f]
    ensures FramesOf(memory[b := f], queue + [b]) == FramesOf(memory, queue) + [f]
  {
    assert forall i :: 0 <= i < |queue| ==> queue[i] in queue;
  }

  // ---- The sessions ------------------------------------------------------------------------

  /** The server's end of a headset link. Frames are copied into buffers of the session's own. */
  class TcpHeadsetSession {
    const header: PacketHeader
    const pool: BufferDeque
    const slots: nat
    var isLive: bool
    var memory: map<Buffer, Frame>
    var messageQueue: seq<Buffer>
    var pending: seq<W.WriteOp>

    ghost predicate Valid()
      reads this, header, pool
    {
      Queues(pool.View(), messageQueue, slots) && forall b :: b in messageQueue ==> b in memory
    }

    ghost function View(): W.Writer
      requires Valid()
      reads this, header, pool
    {
      W.Writer(header.View(), FramesOf(memory, messageQueue), pending)
    }

    constructor (slots: nat)
      ensures Valid() && View() == W.Writer(ZERO_HEADER, [], []) && isLive
      ensures this.slots == slots && fresh(header) && fresh(pool)
    {
      header := new PacketHeader();
      pool := new BufferDeque(slots, false);
      this.slots := slots;
      isLive, memory, messageQueue, pending := true, map[], [], [];
      new;
      FreshQueues(slots);
    }

    /** The frame is queued exactly when the session is live and has a copy buffer left, that is, when fewer
        than `slots` frames are queued; otherwise it is dropped whole. */
    method Write(f: Frame)
      requires Valid()
      modifies this`memory, this`messageQueue, this`pending, header, pool
      ensures Valid()
      ensures View() == if isLive && |old(messageQueue)| < slots then W.Post(old(View()), f) else old(View())
    {
      if !isLive {
        return;
      }
      ghost var before := pool.View();
      var b := pool.Checkout();
      if b.None? {
        return;
      }
      CheckoutQueues(before, messageQueue, slots);
      FramesAppend(memory, messageQueue, b.value, f);
      memory := memory[b.value := f];
      var writeInProgress := messageQueue != [];
      messageQueue := messageQueue + [b.value];
      if !writeInProgress {
        header.SetupHeader(|memory[messageQueue[0]]|);
        pending := pending + [W.SendHeader(0)];
      }
    }

    /** The bytes the socket takes for a completion of `n`. */
    method Outgoing(i: nat, n: nat) returns (bytes: seq<Byte>)
      requires Valid() && W.CanSend(View(), i, n)
      ensures bytes == W.Sent(View(), i, n)
    {
      match pending[i]
      case SendHeader(last) => bytes := Encode(header.fields)[last..last + n];
      case SendBody =>
        assert messageQueue[0] in messageQueue;
        var at := header.bytesWritten % U32;
        bytes := memory[messageQueue[0]][at..at + n];
    }

    method OnHeaderSent(i: nat, n: nat)
      requires Valid() && W.CanSend(View(), i, n) && pending[i].SendHeader?
      modifies this`pending
      ensures Valid() && View() == W.SendDone(old(View()), i, n)
    {
      var total := pending[i].last + n;
      if total == HEADER_SIZE {
        pending := pending[i := W.SendBody];
      } else {
        pending := pending[i := W.SendHeader(total)];
      }
    }

    /** The sent frame's copy buffer goes back to the pool. */
    method PopMessage()
      requires Valid() && messageQueue != []
      modifies this`messageQueue, pool
      ensures Valid() && messageQueue == old(messageQueue)[1..]
      ensures FramesOf(memory, messageQueue) == FramesOf(memory, old(messageQueue))[1..]
    {
      DropQueues(pool.View(), messageQueue, slots);
      pool.Drop(messageQueue[0]);
      messageQueue := messageQueue[1..];
    }

    method OnBodySent(i: nat, n: nat)
      requires Valid() && W.CanSend(View(), i, n) && pending[i].SendBody?
      modifies this`messageQueue, this`pending, header, pool
      ensures Valid() && View() == W.SendDone(old(View()), i, n)
    {
      if n != header.fields.dataLength {
        header.OffsetPacket(n);
        return;
      }
      var finished := header.IsFinished();
      if finished {
        PopMessage();
        if messageQueue == [] {
          pending := RemoveAt(pending, i);
          return;
        }
        assert messageQueue[0] in messageQueue;
        header.SetupHeader(|memory[messageQueue[0]]|);
      } else {
        header.SetupNextHeader();
      }
      pending := pending[i := W.SendHeader(0)];
    }

    /** Closing empties the queue, gives every copy buffer back, and leaves any outstanding send to its own
        end. */
    method TryClose()
      requires Valid()
      modifies this`isLive, this`messageQueue, pool
      ensures Valid() && !isLive
      ensures messageQueue == (if old(isLive) then [] else old(messageQueue))
      ensures old(isLive) ==> |pool.buffers| == slots
    {
      if isLive {
        isLive := false;
        while messageQueue != []
          invariant Valid() && !isLive
          decreases |messageQueue|
        {
          PopMessage();
        }
      }
    }
  }

  /** The server's end of a camera link. `log` records what became of each finished frame: handed to the
      manager, or left in the leaky buffer. */
  class TcpCameraSession {
    const header: PacketHeader
    var isLive: bool
    var receiveBuffer: R.Slot
    var op: R.ReadOp
    var log: seq<R.Outcome>

    ghost function View(): R.Reader
      reads this, header
    {
      R.Reader(header.View(), receiveBuffer, op, log)
    }

    constructor ()
      ensures View() == R.Reader(ZERO_HEADER, R.NoBuffer, R.RecvHeader(0), []) && isLive && fresh(header)
    {
      header := new PacketHeader();
      isLive, receiveBuffer, op, log := true, R.NoBuffer, R.RecvHeader(0), [];
    }

    method TryClose()
      modifies this`isLive
      ensures !isLive
    {
      isLive := false;
    }

    /** `offer` is what `GetReadBuffer` would return. A header that does not parse closes the session. */
    method OnHeaderReceived(chunk: seq<Byte>, offer: R.Slot)
      requires R.CanReceive(View(), chunk, offer) && op.RecvHeader?
      modifies this, header
      ensures old(isLive) ==> View() == R.RecvDone(old(View()), chunk, offer) && isLive == !op.Closed?
      ensures !old(isLive) ==> !isLive && op.Closed? && log == old(log)
    {
      if !isLive {
        op := R.Closed;
        return;
      }
      var total := op.last + |chunk|;
      header.Receive(op.last, chunk);
      if total == HEADER_SIZE && header.fields.front == 0 && header.fields.back == 0 {
        if receiveBuffer == R.NoBuffer {
          receiveBuffer := offer;
        }
        op := R.RecvBody;
      } else if total != HEADER_SIZE {
        op := R.RecvHeader(total);
      } else {
        op := R.Closed;
        TryClose();
      }
    }

    method OnBodyReceived(chunk: seq<Byte>, offer: R.Slot)
      requires R.CanReceive(View(), chunk, offer) && op.RecvBody?
      modifies this, header
      ensures isLive == old(isLive)
      ensures old(isLive) ==> View() == R.RecvDone(old(View()), chunk, offer)
      ensures !old(isLive) ==> op.Closed? && log == old(log)
    {
      if !isLive {
        op := R.Closed;
        return;
      }
      var at := header.bytesWritten % U32;
      receiveBuffer := receiveBuffer.(memory := R.Store(receiveBuffer.memory, at, chunk));
      if |chunk| != header.fields.dataLength {
        header.OffsetPacket(|chunk|);
        return;
      }
      CountedBound(header.View());
      var finished := header.IsFinished();
      if finished {
        if receiveBuffer.Pooled? {
          log := log + [R.Delivered(receiveBuffer.memory[..header.bytesWritten % U32])];
        } else {
          log := log + [R.Dropped];
        }
        receiveBuffer := R.NoBuffer;
        header.ResetHeader();
      }
      op := R.RecvHeader(0);
    }
  }

  /** The client's end: it sends when it is a camera and receives otherwise, over one header that outlives
      its connections. */
  class TcpClient {
    const isCamera: bool
    const header: PacketHeader
    var isStopped: bool
    var isConnected: bool
    var sendBufferQueue: seq<Frame>
    var pending: seq<W.WriteOp>
    var receiveBuffer: R.Slot
    var op: R.ReadOp
    /** Receives of earlier connections that have not completed yet. */
    var lateReceives: nat
    var log: seq<R.Outcome>

    ghost function Sender(): W.Writer
      reads this, header
    {
      W.Writer(header.View(), sendBufferQueue, pending)
    }

    ghost function Receiver(): R.Reader
      reads this, header
    {
      R.Reader(header.View(), receiveBuffer, op, log)
    }

    constructor (isCamera: bool)
      ensures this.isCamera == isCamera && isStopped && !isConnected && fresh(header)
      ensures Sender() == W.Writer(ZERO_HEADER, [], []) && lateReceives == 0
      ensures Receiver() == R.Reader(ZERO_HEADER, R.NoBuffer, R.Closed, [])
    {
      this.isCamera := isCamera;
      header := new PacketHeader();
      isStopped, isConnected, sendBufferQueue, pending := true, false, [], [];
      receiveBuffer, op, lateReceives, log := R.NoBuffer, R.Closed, 0, [];
    }

    method Start()
      modifies this`isStopped
      ensures !isStopped
    {
      isStopped := false;
    }

    method Post(f: Frame)
      modifies this`sendBufferQueue, this`pending, header
      ensures Sender() == if isStopped || !isConnected then old(Sender()) else W.Post(old(Sender()), f)
    {
      if isStopped || !isConnected {
        return;
      }
      var writeInProgress := sendBufferQueue != [];
      sendBufferQueue := sendBufferQueue + [f];
      if !writeInProgress {
        header.SetupHeader(|sendBufferQueue[0]|);
        pending := pending + [W.SendHeader(0)];
      }
    }

    /** The bytes the socket takes for a completion of `n`. */
    method Outgoing(i: nat, n: nat) returns (bytes: seq<Byte>)
      requires W.CanSend(Sender(), i, n)
      ensures bytes == W.Sent(Sender(), i, n)
    {
      match pending[i]
      case SendHeader(last) => bytes := Encode(header.fields)[last..last + n];
      case SendBody =>
        var at := header.bytesWritten % U32;
        bytes := sendBufferQueue[0][at..at + n];
    }

    /** A completion that arrives after the connection is gone changes nothing but itself. */
    method OnHeaderSent(i: nat, n: nat)
      requires W.CanSend(Sender(), i, n) && pending[i].SendHeader?
      modifies this`pending
      ensures Sender() == if isStopped || !isConnected then old(Sender()).(pending := RemoveAt(old(pending), i))
                          else W.SendDone(old(Sender()), i, n)
    {
      if isStopped || !isConnected {
        pending := RemoveAt(pending, i);
        return;
      }
      var total := pending[i].last + n;
      pending := pending[i := if total == HEADER_SIZE then W.SendBody else W.SendHeader(total)];
    }

    method OnBodySent(i: nat, n: nat)
      requires W.CanSend(Sender(), i, n) && pending[i].SendBody?
      modifies this`sendBufferQueue, this`pending, header
      ensures Sender() == if isStopped || !isConnected then old(Sender()).(pending := RemoveAt(old(pending), i))
                          else W.SendDone(old(Sender()), i, n)
    {
      if isStopped || !isConnected {
        pending := RemoveAt(pending, i);
        return;
      }
      if n != header.fields.dataLength {
        header.OffsetPacket(n);
        return;
      }
      var finished := header.IsFinished();
      if !finished {
        header.SetupNextHeader();
        pending := pending[i := W.SendHeader(0)];
        return;
      }
      sendBufferQueue := sendBufferQueue[1..];
      if sendBufferQueue == [] {
        pending := RemoveAt(pending, i);
        return;
      }
      header.SetupHeader(|sendBufferQueue[0]|);
      pending := pending[i := W.SendHeader(0)];
    }

    /** The connection is given up, while the operations outstanding on its socket are yet to fail. A camera
        forgets its queue, a headset its half-filled buffer. */
    method Disconnect()
      modifies this`isConnected, this`sendBufferQueue, this`receiveBuffer
      ensures !isConnected
      ensures isCamera ==> sendBufferQueue == [] && receiveBuffer == old(receiveBuffer)
      ensures !isCamera ==> receiveBuffer == R.NoBuffer && sendBufferQueue == old(sendBufferQueue)
    {
      isConnected := false;
      if isCamera {
        sendBufferQueue := [];
      } else {
        receiveBuffer := R.NoBuffer;
      }
    }

    method Stop()
      modifies this`isStopped, this`isConnected, this`sendBufferQueue, this`receiveBuffer
      ensures isStopped && (!old(isStopped) ==> !isConnected)
      ensures old(isStopped) ==> isConnected == old(isConnected)
    {
      if !isStopped {
        isStopped := true;
        Disconnect();
      }
    }

    /** A send that failed ends its chain, and the connection if there still is one. */
    method OnSendError(i: nat)
      requires i < |pending|
      modifies this`pending, this`isConnected, this`sendBufferQueue, this`receiveBuffer
      ensures pending == RemoveAt(old(pending), i)
      ensures if old(isStopped || !isConnected)
              then isConnected == old(isConnected) && sendBufferQueue == old(sendBufferQueue) &&
                   receiveBuffer == old(receiveBuffer)
              else !isConnected && if isCamera then sendBufferQueue == [] else receiveBuffer == R.NoBuffer
    {
      pending := RemoveAt(pending, i);
      if !isStopped && isConnected {
        Disconnect();
      }
    }

    /** A receive that failed, or was `aborted` because the socket went away. */
    method OnReceiveError(aborted: bool)
      modifies this`op, this`isConnected, this`sendBufferQueue, this`receiveBuffer
      ensures op.Closed?
      ensures if aborted || old(isStopped || !isConnected)
              then isConnected == old(isConnected) && sendBufferQueue == old(sendBufferQueue) &&
                   receiveBuffer == old(receiveBuffer)
              else !isConnected && if isCamera then sendBufferQueue == [] else receiveBuffer == R.NoBuffer
    {
      op := R.Closed;
      if !aborted && !isStopped && isConnected {
        Disconnect();
      }
    }

    /** A header that does not parse ends in a disconnect; every other completion is a step of the chain. */
    method OnHeaderReceived(chunk: seq<Byte>, offer: R.Slot)
      requires R.CanReceive(Receiver(), chunk, offer) && op.RecvHeader? && !isCamera
      modifies this`op, this`isConnected, this`sendBufferQueue, this`receiveBuffer, header
      ensures old(isStopped || !isConnected) ==>
                isConnected == old(isConnected) && Receiver() == old(Receiver()).(op := R.Closed)
      ensures old(!isStopped && isConnected) && !R.RecvDone(old(Receiver()), chunk, offer).op.Closed? ==>
                isConnected && Receiver() == R.RecvDone(old(Receiver()), chunk, offer)
      ensures old(!isStopped && isConnected) && R.RecvDone(old(Receiver()), chunk, offer).op.Closed? ==>
                !isConnected && op.Closed? && receiveBuffer == R.NoBuffer
    {
      if isStopped || !isConnected {
        op := R.Closed;
        return;
      }
      var total := op.last + |chunk|;
      header.Receive(op.last, chunk);
      if total == HEADER_SIZE && header.fields.front == 0 && header.fields.back == 0 {
        if receiveBuffer == R.NoBuffer {
          receiveBuffer := offer;
        }
        op := R.RecvBody;
      } else if total < HEADER_SIZE {
        op := R.RecvHeader(total);
      } else {
        op := R.Closed;
        Disconnect();
      }
    }

    method OnBodyReceived(chunk: seq<Byte>, offer: R.Slot)
      requires R.CanReceive(Receiver(), chunk, offer) && op.RecvBody?
      modifies this`receiveBuffer, this`op, this`log, header
      ensures Receiver() == if isStopped || !isConnected then old(Receiver()).(op := R.Closed)
                            else R.RecvDone(old(Receiver()), chunk, offer)
    {
      if isStopped || !isConnected {
        op := R.Closed;
        return;
      }
      var at := header.bytesWritten % U32;
      receiveBuffer := receiveBuffer.(memory := R.Store(receiveBuffer.memory, at, chunk));
      if |chunk| != header.fields.dataLength {
        header.OffsetPacket(|chunk|);
        return;
      }
      CountedBound(header.View());
      var finished := header.IsFinished();
      if finished {
        var size := header.bytesWritten % U32;
        log := log + [if receiveBuffer.Pooled? then R.Delivered(receiveBuffer.memory[..size]) else R.Dropped];
        receiveBuffer := R.NoBuffer;
        header.ResetHeader();
      }
      op := R.RecvHeader(0);
    }

    /** A receive of an earlier connection is aborted, which is all that happens. */
    method OnLateReceive()
      requires lateReceives > 0
      modifies this`lateReceives
      ensures lateReceives == old(lateReceives) - 1
    {
      lateReceives := lateReceives - 1;
    }

    /** Connects again, once for each of `outcomes` until one succeeds. The chain of this client's kind then
        starts afresh over the old header, beside whatever operations of earlier connections are still to
        complete. */
    method StartConnection(outcomes: seq<bool>)
      requires !isConnected
      modifies this`isConnected, this`log, this`op, this`lateReceives, header
      ensures isConnected <==> !isStopped && true in outcomes
      ensures isConnected && isCamera ==>
                Sender() == W.Writer(old(header.View()).ResetHeader(), sendBufferQueue, pending) && op == old(op)
      ensures isConnected && !isCamera ==>
                && Receiver() == R.Reader(old(header.View()).ResetHeader(), receiveBuffer, R.RecvHeader(0), [])
                && lateReceives == old(lateReceives) + if old(op).Closed? then 0 else 1
      ensures !isConnected ==> op == old(op) && log == old(log) && lateReceives == old(lateReceives)
      decreases |outcomes|
    {
      if isStopped {
        return;
      }
      header.ResetHeader();
      if outcomes == [] {
        return;
      }
      if !outcomes[0] {
        StartConnection(outcomes[1..]);
        return;
      }
      isConnected := true;
      log := [];
      if !isCamera {
        if !op.Closed? {
          lateReceives := lateReceives + 1;
        }
        op := R.RecvHeader(0);
      }
    }
  }
}
