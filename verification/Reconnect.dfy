/** A link that reconnects: one connection after another between the same client and the server, each from
    whatever header the client was left with. */
module Reconnect {
  import opened Packet
  import opened Wire
  import opened Connection
  import W = WriteChain
  import R = ReadChain

  /** The live connection and the ones the client gave up on, oldest first. */
  datatype Link = Link(live: Conn, past: seq<Conn>)

  datatype LinkEvent = On(e: Event) | Reopen(clientSends: bool)

  function Fresh(cap: nat): Link {
    Link(Open(ZERO_HEADER, ZERO_HEADER, cap), [])
  }

  /** `disconnect` empties the client's queue and forgets its receive buffer; `startConnection` resets its
      byte count. The client keeps its header object; the server starts a new session. */
  function Reopened(c: Conn, clientSends: bool): Conn {
    if clientSends then Open(c.w.header.ResetHeader(), ZERO_HEADER, c.cap)
    else Open(ZERO_HEADER, c.r.header, c.cap)
  }

  predicate LinkEnabled(l: Link, e: LinkEvent) {
    e.On? ==> Enabled(l.live, e.e)
  }

  function LinkStep(l: Link, e: LinkEvent): Link
    requires LinkEnabled(l, e)
  {
    match e
    case On(ev) => l.(live := Step(l.live, ev))
    case Reopen(clientSends) => Link(Reopened(l.live, clientSends), l.past + [l.live])
  }

  predicate LinkLegal(l: Link, es: seq<LinkEvent>)
    decreases |es|
  {
    es == [] || (LinkEnabled(l, es[0]) && LinkLegal(LinkStep(l, es[0]), es[1..]))
  }

  function LinkRun(l: Link, es: seq<LinkEvent>): Link
    requires LinkLegal(l, es)
    decreases |es|
  {
    if es == [] then l else LinkRun(LinkStep(l, es[0]), es[1..])
  }

  // ---- Whole runs --------------------------------------------------------------------------

  ghost predicate LinkInv(l: Link) {
    Inv(l.live) && forall i :: 0 <= i < |l.past| ==> Inv(l.past[i])
  }

  lemma LinkStepKeeps(l: Link, e: LinkEvent)
    requires LinkInv(l) && LinkEnabled(l, e)
    ensures LinkInv(LinkStep(l, e))
  {
    hide Inv, Open;
    match e
    case On(ev) => StepKeeps(l.live, ev);
    case Reopen(clientSends) =>
      OpenInv(l.live.w.header.ResetHeader(), ZERO_HEADER, l.live.cap);
      OpenInv(ZERO_HEADER, l.live.r.header, l.live.cap);
  }

  lemma {:induction false} LinkRunKeeps(l: Link, es: seq<LinkEvent>)
    requires LinkInv(l) && LinkLegal(l, es)
    ensures LinkInv(LinkRun(l, es))
    decreases |es|
  {
    hide LinkInv, LinkStep, LinkEnabled;
    if es == [] {
    } else {
      LinkStepKeeps(l, es[0]);
      LinkRunKeeps(LinkStep(l, es[0]), es[1..]);
    }
  }

  /** Adds to the first of several segments. */
  function Prepend(x: seq<Frame>, ss: seq<seq<Frame>>): (r: seq<seq<Frame>>)
    requires ss != []
    ensures |r| == |ss|
  {
    [x + ss[0]] + ss[1..]
  }

  lemma PrependPrepend(x: seq<Frame>, y: seq<Frame>, ss: seq<seq<Frame>>)
    requires ss != []
    ensures Prepend(x, Prepend(y, ss)) == Prepend(x + y, ss)
    ensures Prepend([], ss) == ss && Prepend(x, [[]] + ss) == [x] + ss
  {
    assert x + (y + ss[0]) == (x + y) + ss[0] && [] + ss[0] == ss[0] && x + [] == x;
  }

  /** The frames a schedule posts, cut at every reconnect. */
  function Segments(es: seq<LinkEvent>): (ss: seq<seq<Frame>>)
    ensures ss != []
  {
    if es == [] then [[]]
    else if es[0].Reopen? then [[]] + Segments(es[1..])
    else Prepend(Posted([es[0].e]), Segments(es[1..]))
  }

  /** All connections of a link, the live one last. */
  function Conns(l: Link): seq<Conn> {
    l.past + [l.live]
  }

  function AcceptedBy(cs: seq<Conn>): seq<seq<Frame>> {
    seq(|cs|, i requires 0 <= i < |cs| => cs[i].accepted)
  }

  function Logs(cs: seq<Conn>): seq<seq<R.Outcome>> {
    seq(|cs|, i requires 0 <= i < |cs| => cs[i].r.log)
  }

  lemma AcceptedByMore(cs: seq<Conn>, c: Conn)
    ensures AcceptedBy(cs + [c]) == AcceptedBy(cs) + [c.accepted]
  {
  }

  lemma LastSegment(x: seq<Frame>)
    ensures Prepend(x, [[]]) == [x]
  {
    assert x + [] == x;
  }

  lemma ReopenedAcceptsNothing(c: Conn, clientSends: bool)
    ensures Reopened(c, clientSends).accepted == []
  {
  }

  /** Each connection accepts exactly the frames posted between its reconnects. */
  lemma {:induction false} LinkAccepts(l: Link, es: seq<LinkEvent>)
    requires LinkLegal(l, es)
    ensures AcceptedBy(Conns(LinkRun(l, es))) == AcceptedBy(l.past) + Prepend(l.live.accepted, Segments(es))
    decreases |es|
  {
    hide Step, Enabled, Posted, AcceptedBy, Prepend, Open;
    AcceptedByMore(l.past, l.live);
    if es == [] {
      PrependPrepend(l.live.accepted, [], [[]]);
      LastSegment(l.live.accepted);
    } else {
      var rest := Segments(es[1..]);
      LinkAccepts(LinkStep(l, es[0]), es[1..]);
      if es[0].Reopen? {
        PrependPrepend(l.live.accepted, [], rest);
        ReopenedAcceptsNothing(l.live, es[0].clientSends);
        assert (AcceptedBy(l.past) + [l.live.accepted]) + rest == AcceptedBy(l.past) + ([l.live.accepted] + rest);
      } else {
        StepFrame(l.live, es[0].e);
        PrependPrepend(l.live.accepted, Posted([es[0].e]), rest);
      }
    }
  }

  /** Across any number of reconnects, at any moment, every connection of the link, closed or live, has
      accepted exactly the frames posted on it and consumed whole frames of its own and nothing else: no
      delivered frame is torn or mixes bytes of two connections. */
  lemma ReconnectsStayFaithful(writerHeader: Header, readerHeader: Header, cap: nat, es: seq<LinkEvent>)
    requires LinkLegal(Link(Open(writerHeader, readerHeader, cap), []), es)
    ensures var cs := Conns(LinkRun(Link(Open(writerHeader, readerHeader, cap), []), es));
            && AcceptedBy(cs) == Segments(es) && |cs| == |Segments(es)|
            && forall i :: 0 <= i < |cs| ==> R.Faithful(Segments(es)[i], cs[i].r.log) && cs[i].r.op != R.Closed
  {
    hide Inv, R.Faithful, LinkLegal, Segments, Prepend;
    var l := Link(Open(writerHeader, readerHeader, cap), []);
    OpenInv(writerHeader, readerHeader, cap);
    LinkRunKeeps(l, es);
    LinkAccepts(l, es);
    var cs, ss := Conns(LinkRun(l, es)), Segments(es);
    PrependPrepend([], [], ss);
    assert AcceptedBy([]) + ss == ss;
    forall i | 0 <= i < |cs|
      ensures R.Faithful(ss[i], cs[i].r.log) && cs[i].r.op != R.Closed
    {
      assert AcceptedBy(cs)[i] == cs[i].accepted;
      InvMeans(cs[i]);
    }
  }

  // ---- A sender with a bounded number of buffers -------------------------------------------

  /** The server's session refuses a frame while all its copy buffers are queued. */
  predicate Refused(l: Link, e: LinkEvent, slots: nat) {
    e.On? && e.e.Post? && |l.live.w.queue| >= slots
  }

  predicate BoundedLegal(l: Link, es: seq<LinkEvent>, slots: nat)
    decreases |es|
  {
    || es == []
    || (LinkEnabled(l, es[0]) &&
        BoundedLegal(if Refused(l, es[0], slots) then l else LinkStep(l, es[0]), es[1..], slots))
  }

  /** What is left of a schedule without the refused frames. */
  function Admitted(l: Link, es: seq<LinkEvent>, slots: nat): (kept: seq<LinkEvent>)
    requires BoundedLegal(l, es, slots)
    ensures LinkLegal(l, kept)
    decreases |es|
  {
    if es == [] then []
    else if Refused(l, es[0], slots) then Admitted(l, es[1..], slots)
    else
      var rest := Admitted(LinkStep(l, es[0]), es[1..], slots);
      assert ([es[0]] + rest)[1..] == rest;
      [es[0]] + rest
  }
}
