/** The session objects at work: a client and a server session joined by a byte stream, driven through any
    schedule of posts, partial transfers and reconnects, follow the link of `Reconnect` step by step. */
module Links {
  import opened Packet
  import opened Wire
  import opened Sessions
  import W = WriteChain
  import R = ReadChain
  import C = Connection
  import K = Reconnect

  /** A byte stream: everything sent, and how much of it was taken. */
  datatype Stream = Stream(wire: seq<Byte>, consumed: nat)

  /** What is still to happen on a link, given how far it has come. */
  ghost predicate Ahead(l: K.Link, rest: seq<K.LinkEvent>, start: K.Link, es: seq<K.LinkEvent>) {
    && K.LinkInv(l) && K.LinkLegal(l, rest)
    && K.LinkLegal(start, es) && K.LinkRun(l, rest) == K.LinkRun(start, es)
  }

  lemma AheadStarts(cap: nat, es: seq<K.LinkEvent>)
    requires K.LinkLegal(K.Fresh(cap), es)
    ensures Ahead(K.Fresh(cap), es, K.Fresh(cap), es)
  {
    C.OpenInv(ZERO_HEADER, ZERO_HEADER, cap);
  }

  lemma AheadSteps(l: K.Link, rest: seq<K.LinkEvent>, start: K.Link, es: seq<K.LinkEvent>)
    requires Ahead(l, rest, start, es) && rest != []
    ensures K.LinkEnabled(l, rest[0]) && C.Inv(l.live)
    ensures Ahead(K.LinkStep(l, rest[0]), rest[1..], start, es)
  {
    hide C.Inv;
    K.LinkStepKeeps(l, rest[0]);
  }

  lemma AheadEnds(l: K.Link, start: K.Link, es: seq<K.LinkEvent>)
    requires Ahead(l, [], start, es)
    ensures K.LinkLegal(start, es) && l == K.LinkRun(start, es)
  {
  }

  lemma LogsAppend(cs: seq<C.Conn>, c: C.Conn)
    ensures K.Logs([]) == [] && K.Logs(cs + [c]) == K.Logs(cs) + [c.r.log]
  {
  }

  /** What the sessions of a link have logged is, frame by frame, what was posted while each lasted, delivered
      whole or dropped whole. */
  ghost predicate LoggedFaithfully(es: seq<K.LinkEvent>, logs: seq<seq<R.Outcome>>) {
    |logs| == |K.Segments(es)| && forall i :: 0 <= i < |logs| ==> R.Faithful(K.Segments(es)[i], logs[i])
  }

  lemma LogsAreFaithful(cap: nat, es: seq<K.LinkEvent>)
    requires K.LinkLegal(K.Fresh(cap), es)
    ensures LoggedFaithfully(es, K.Logs(K.Conns(K.LinkRun(K.Fresh(cap), es))))
  {
    hide R.Faithful, K.LinkLegal, K.LinkRun, K.Segments;
    K.ReconnectsStayFaithful(ZERO_HEADER, ZERO_HEADER, cap, es);
  }

  // ---- A camera's link ---------------------------------------------------------------------

  /** The camera's client and the server's session stand where connection `c` says. */
  ghost predicate CameraAt(client: TcpClient, session: TcpCameraSession, t: Stream, c: C.Conn)
    reads client, client.header, session, session.header
  {
    && client.header != session.header
    && client.isCamera && !client.isStopped && client.isConnected && client.op.Closed? && session.isLive
    && client.Sender() == c.w && session.View() == c.r
    && t == Stream(c.wire, c.consumed)
  }

  lemma CameraLog(client: TcpClient, session: TcpCameraSession, t: Stream, c: C.Conn)
    requires CameraAt(client, session, t, c)
    ensures session.log == c.r.log
  {
  }

  method CameraStarts(cap: nat) returns (client: TcpClient, session: TcpCameraSession, t: Stream)
    ensures fresh(client) && fresh(client.header) && fresh(session) && fresh(session.header)
    ensures CameraAt(client, session, t, K.Fresh(cap).live)
  {
    client := new TcpClient(true);
    client.Start();
    client.StartConnection([true]);
    session := new TcpCameraSession();
    t := Stream([], 0);
  }

  /** A receive never closes a session that is in step. */
  lemma StaysOpen(c: C.Conn, e: C.Event)
    requires C.Inv(c) && C.Enabled(c, e)
    ensures !c.r.op.Closed? && !C.Step(c, e).r.op.Closed?
  {
    hide C.Inv;
    C.StepKeeps(c, e);
    C.InvMeans(c);
    C.InvMeans(C.Step(c, e));
  }

  method CameraEvent(client: TcpClient, session: TcpCameraSession, t: Stream, ghost c: C.Conn, e: C.Event)
    returns (t': Stream)
    requires CameraAt(client, session, t, c) && C.Inv(c) && C.Enabled(c, e)
    modifies client, client.header, session, session.header
    ensures CameraAt(client, session, t', C.Step(c, e))
  {
    hide C.Inv;
    t' := t;
    match e
    case Post(f) => client.Post(f);
    case Send(i, n) =>
      var bytes := client.Outgoing(i, n);
      if client.pending[i].SendHeader? {
        client.OnHeaderSent(i, n);
      } else {
        client.OnBodySent(i, n);
      }
      t' := t.(wire := t.wire + bytes);
    case Recv(n, offer) =>
      StaysOpen(c, e);
      var chunk := t.wire[t.consumed..t.consumed + n];
      if session.op.RecvHeader? {
        session.OnHeaderReceived(chunk, offer);
      } else {
        session.OnBodyReceived(chunk, offer);
      }
      t' := t.(consumed := t.consumed + n);
  }

  /** The client loses its connection, waits until its outstanding sends have failed, and connects again to a
      new session. */
  method CameraReopens(client: TcpClient, gone: TcpCameraSession, t: Stream, ghost c: C.Conn, failures: nat)
    returns (session: TcpCameraSession, t': Stream)
    requires CameraAt(client, gone, t, c)
    modifies client, client.header
    ensures fresh(session) && fresh(session.header)
    ensures CameraAt(client, session, t', K.Reopened(c, true))
  {
    client.Disconnect();
    while client.pending != []
      invariant client.sendBufferQueue == [] && !client.isConnected && !client.isStopped && client.isCamera
      invariant client.header.View() == c.w.header && client.op.Closed?
      decreases |client.pending|
    {
      client.OnSendError(0);
    }
    client.StartConnection(seq(failures, _ => false) + [true]);
    session := new TcpCameraSession();
    t' := Stream([], 0);
  }

  /** Any schedule on a camera's link: the objects end where the link does, and have logged faithfully. */
  method RunCameraLink(cap: nat, es: seq<K.LinkEvent>, failures: nat)
    returns (client: TcpClient, session: TcpCameraSession, t: Stream, logs: seq<seq<R.Outcome>>)
    requires K.LinkLegal(K.Fresh(cap), es) && forall e :: e in es && e.Reopen? ==> e.clientSends
    ensures CameraAt(client, session, t, K.LinkRun(K.Fresh(cap), es).live)
    ensures logs == K.Logs(K.Conns(K.LinkRun(K.Fresh(cap), es)))
    ensures LoggedFaithfully(es, logs)
  {
    hide C.Inv, K.LinkInv, K.LinkLegal, K.LinkRun, LoggedFaithfully, K.Logs, K.Reopened, Ahead, CameraAt;
    hide C.Step, C.Enabled;
    client, session, t := CameraStarts(cap);
    logs := [];
    ghost var l := K.Fresh(cap);
    LogsAppend([], l.live);
    AheadStarts(cap, es);
    for i := 0 to |es|
      invariant Ahead(l, es[i..], K.Fresh(cap), es)
      invariant fresh(client) && fresh(client.header) && fresh(session) && fresh(session.header)
      invariant CameraAt(client, session, t, l.live) && logs == K.Logs(l.past)
    {
      assert es[i..][0] == es[i] && es[i..][1..] == es[i + 1..];
      AheadSteps(l, es[i..], K.Fresh(cap), es);
      match es[i] {
        case On(e) => t := CameraEvent(client, session, t, l.live, e);
        case Reopen(clientSends) =>
          assert es[i] in es;
          CameraLog(client, session, t, l.live);
          LogsAppend(l.past, l.live);
          logs := logs + [session.log];
          session, t := CameraReopens(client, session, t, l.live, failures);
      }
      l := K.LinkStep(l, es[i]);
    }
    assert es[|es|..] == [];
    AheadEnds(l, K.Fresh(cap), es);
    CameraLog(client, session, t, l.live);
    LogsAppend(l.past, l.live);
    logs := logs + [session.log];
    LogsAreFaithful(cap, es);
  }

  // ---- A headset's link --------------------------------------------------------------------

  /** The server's session and the headset's client stand where connection `c` says. */
  ghost predicate HeadsetAt(session: TcpHeadsetSession, client: TcpClient, t: Stream, c: C.Conn)
    reads client, client.header, session, session.header, session.pool
  {
    && client.header != session.header
    && !client.isCamera && !client.isStopped && client.isConnected && session.isLive
    && session.Valid() && session.View() == c.w && client.Receiver() == c.r
    && t == Stream(c.wire, c.consumed)
  }

  lemma HeadsetLog(session: TcpHeadsetSession, client: TcpClient, t: Stream, c: C.Conn)
    requires HeadsetAt(session, client, t, c)
    ensures client.log == c.r.log && |session.messageQueue| == |c.w.queue|
  {
  }

  method HeadsetStarts(cap: nat, slots: nat) returns (session: TcpHeadsetSession, client: TcpClient, t: Stream)
    ensures fresh(client) && fresh(client.header) && fresh(session) && fresh(session.header) && fresh(session.pool)
    ensures HeadsetAt(session, client, t, K.Fresh(cap).live) && session.slots == slots
  {
    client := new TcpClient(false);
    client.Start();
    client.StartConnection([true]);
    session := new TcpHeadsetSession(slots);
    t := Stream([], 0);
  }

  lemma SendIsPending(w: W.Writer, i: nat, n: nat)
    requires W.CanSend(w, i, n)
    ensures i < |w.pending|
  {
  }

  method HeadsetSends(session: TcpHeadsetSession, client: TcpClient, t: Stream, ghost c: C.Conn, i: nat, n: nat)
    returns (t': Stream)
    requires HeadsetAt(session, client, t, c) && W.CanSend(c.w, i, n)
    modifies session, session.header, session.pool
    ensures HeadsetAt(session, client, t', C.Step(c, C.Send(i, n)))
  {
    hide Queues, FramesOf, W.SendDone, W.Sent, W.CanSend;
    assert i < |session.pending| by { SendIsPending(c.w, i, n); }
    var bytes := session.Outgoing(i, n);
    if session.pending[i].SendHeader? {
      session.OnHeaderSent(i, n);
    } else {
      session.OnBodySent(i, n);
    }
    t' := t.(wire := t.wire + bytes);
  }

  method HeadsetReceives(session: TcpHeadsetSession, client: TcpClient, t: Stream, ghost c: C.Conn, n: nat,
                         offer: R.Slot) returns (t': Stream)
    requires HeadsetAt(session, client, t, c) && C.Inv(c) && C.Enabled(c, C.Recv(n, offer))
    modifies client, client.header
    ensures HeadsetAt(session, client, t', C.Step(c, C.Recv(n, offer)))
  {
    hide C.Inv, R.RecvDone, FramesOf, Queues;
    StaysOpen(c, C.Recv(n, offer));
    var chunk := t.wire[t.consumed..t.consumed + n];
    if client.op.RecvHeader? {
      client.OnHeaderReceived(chunk, offer);
    } else {
      client.OnBodyReceived(chunk, offer);
    }
    t' := t.(consumed := t.consumed + n);
  }

  /** A post is refused, whole, when every copy buffer is queued. */
  method HeadsetEvent(session: TcpHeadsetSession, client: TcpClient, t: Stream, ghost c: C.Conn, e: C.Event)
    returns (t': Stream)
    requires HeadsetAt(session, client, t, c) && C.Inv(c) && C.Enabled(c, e)
    modifies client, client.header, session, session.header, session.pool
    ensures HeadsetAt(session, client, t', if e.Post? && |c.w.queue| >= session.slots then c else C.Step(c, e))
  {
    hide C.Inv, Queues, W.CanSend, W.SendDone, W.Sent, R.CanReceive, R.RecvDone;
    match e
    case Post(f) =>
      HeadsetLog(session, client, t, c);
      session.Write(f);
      t' := t;
    case Send(i, n) => t' := HeadsetSends(session, client, t, c, i, n);
    case Recv(n, offer) => t' := HeadsetReceives(session, client, t, c, n, offer);
  }

  /** The client's receive fails, which ends its connection, and it connects again to a new session. */
  method HeadsetReopens(gone: TcpHeadsetSession, client: TcpClient, t: Stream, ghost c: C.Conn, failures: nat)
    returns (session: TcpHeadsetSession, t': Stream)
    requires HeadsetAt(gone, client, t, c) && C.Inv(c)
    modifies client, client.header
    ensures fresh(session) && fresh(session.header) && fresh(session.pool) && session.slots == gone.slots
    ensures HeadsetAt(session, client, t', K.Reopened(c, false))
  {
    hide C.Inv;
    client.OnReceiveError(false);
    while client.pending != []
      invariant client.receiveBuffer == R.NoBuffer && !client.isConnected && !client.isStopped && !client.isCamera
      invariant client.header.View() == c.r.header && client.op.Closed?
      decreases |client.pending|
    {
      client.OnSendError(0);
    }
    client.StartConnection(seq(failures, _ => false) + [true]);
    session := new TcpHeadsetSession(gone.slots);
    t' := Stream([], 0);
  }

  /** As `Ahead`, for a schedule whose refused posts are left out. */
  ghost predicate BoundedAhead(l: K.Link, rest: seq<K.LinkEvent>, start: K.Link, es: seq<K.LinkEvent>, slots: nat) {
    && K.LinkInv(l) && K.BoundedLegal(l, rest, slots) && K.BoundedLegal(start, es, slots)
    && K.LinkRun(l, K.Admitted(l, rest, slots)) == K.LinkRun(start, K.Admitted(start, es, slots))
  }

  lemma BoundedStarts(cap: nat, es: seq<K.LinkEvent>, slots: nat)
    requires K.BoundedLegal(K.Fresh(cap), es, slots)
    ensures BoundedAhead(K.Fresh(cap), es, K.Fresh(cap), es, slots)
  {
    C.OpenInv(ZERO_HEADER, ZERO_HEADER, cap);
  }

  lemma BoundedSteps(l: K.Link, rest: seq<K.LinkEvent>, start: K.Link, es: seq<K.LinkEvent>, slots: nat)
    requires BoundedAhead(l, rest, start, es, slots) && rest != []
    ensures K.LinkEnabled(l, rest[0]) && C.Inv(l.live)
    ensures BoundedAhead(if K.Refused(l, rest[0], slots) then l else K.LinkStep(l, rest[0]), rest[1..],
                         start, es, slots)
  {
    hide C.Inv, K.LinkEnabled, K.LinkStep;
    assert C.Inv(l.live);
    if !K.Refused(l, rest[0], slots) {
      K.LinkStepKeeps(l, rest[0]);
      var later := K.Admitted(K.LinkStep(l, rest[0]), rest[1..], slots);
      assert ([rest[0]] + later)[1..] == later;
    }
  }

  lemma BoundedEnds(l: K.Link, start: K.Link, es: seq<K.LinkEvent>, slots: nat)
    requires BoundedAhead(l, [], start, es, slots)
    ensures K.BoundedLegal(start, es, slots) && l == K.LinkRun(start, K.Admitted(start, es, slots))
  {
  }

  /** Any schedule on a headset's link: the objects end where the link does under the schedule without the
      posts that found every copy buffer queued, and the client has logged the others faithfully. */
  method RunHeadsetLink(cap: nat, es: seq<K.LinkEvent>, slots: nat, failures: nat)
    returns (session: TcpHeadsetSession, client: TcpClient, t: Stream, logs: seq<seq<R.Outcome>>)
    requires K.BoundedLegal(K.Fresh(cap), es, slots) && forall e :: e in es && e.Reopen? ==> !e.clientSends
    ensures HeadsetAt(session, client, t, K.LinkRun(K.Fresh(cap), K.Admitted(K.Fresh(cap), es, slots)).live)
    ensures logs == K.Logs(K.Conns(K.LinkRun(K.Fresh(cap), K.Admitted(K.Fresh(cap), es, slots))))
    ensures LoggedFaithfully(K.Admitted(K.Fresh(cap), es, slots), logs)
  {
    hide C.Inv, K.LinkInv, K.LinkLegal, K.LinkRun, K.BoundedLegal, K.Admitted, LoggedFaithfully, K.Logs, K.Reopened;
    hide C.Step, C.Enabled, BoundedAhead, HeadsetAt;
    session, client, t := HeadsetStarts(cap, slots);
    logs := [];
    ghost var start := K.Fresh(cap);
    ghost var l := start;
    LogsAppend([], l.live);
    BoundedStarts(cap, es, slots);
    for i := 0 to |es|
      invariant BoundedAhead(l, es[i..], start, es, slots) && session.slots == slots
      invariant fresh(client) && fresh(client.header)
      invariant fresh(session) && fresh(session.header) && fresh(session.pool)
      invariant HeadsetAt(session, client, t, l.live) && logs == K.Logs(l.past)
    {
      assert es[i..][0] == es[i] && es[i..][1..] == es[i + 1..];
      BoundedSteps(l, es[i..], start, es, slots);
      match es[i] {
        case On(e) => t := HeadsetEvent(session, client, t, l.live, e);
        case Reopen(clientSends) =>
          assert es[i] in es;
          HeadsetLog(session, client, t, l.live);
          LogsAppend(l.past, l.live);
          logs := logs + [client.log];
          session, t := HeadsetReopens(session, client, t, l.live, failures);
      }
      l := if K.Refused(l, es[i], slots) then l else K.LinkStep(l, es[i]);
    }
    assert es[|es|..] == [];
    BoundedEnds(l, start, es, slots);
    HeadsetLog(session, client, t, l.live);
    LogsAppend(l.past, l.live);
    logs := logs + [client.log];
    LogsAreFaithful(cap, K.Admitted(start, es, slots));
  }
}
