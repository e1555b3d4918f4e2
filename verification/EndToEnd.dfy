/** Camera to headset: every link, the connection manager and every camera's fan-out run side by side, in
    any interleaving of whole handlers. */
module EndToEnd {
  import opened Common
  import opened Packet
  import opened Wire
  import opened AddressOrder
  import opened Assignment
  import P = Pools
  import R = ReadChain
  import C = Connection
  import X = ConnectionIndex
  import L = Relay

  /** A camera session: its link and its fan-out. */
  datatype Cam = Cam(conn: C.Conn, relay: L.Relay)

  /** Where a frame queued for a headset came from: the camera session and the number of its posting. */
  datatype Tag = Tag(cam: Session, index: nat)

  /** `slots` is the number of copy buffers: each queued frame occupies one. */
  datatype Head = Head(conn: C.Conn, tags: seq<Tag>, slots: nat)

  datatype World = World(mgr: State, cams: map<Session, Cam>, heads: map<Session, Head>, cap: nat)

  /** What a client brings to a new connection, and the buffers the server makes for it. */
  datatype Arrival = Arrival(header: Header, count: nat, heap: map<P.Buffer, L.Memory>)

  datatype Event =
    | Manage(op: Op, arrival: Arrival)
    | OnCamera(cam: Session, e: C.Event, targets: seq<Session>)
    | OnHeadset(head: Session, e: C.Event)
    | RunJob(cam: Session, i: nat, live: bool)

  function Start(cap: nat): World {
    World(EMPTY, map[], map[], cap)
  }

  // ---- Steps -------------------------------------------------------------------------------

  /** All of a session's buffers have the one configured size. */
  ghost predicate Sized(heap: map<P.Buffer, L.Memory>, cap: nat) {
    forall b :: b in heap ==> |heap[b].bytes| == cap
  }

  ghost predicate ArrivalOk(a: Arrival, cap: nat) {
    (forall b :: b in a.heap <==> b <= a.count) && Sized(a.heap, cap)
  }

  /** A manager call. A registration comes with a fresh connection. */
  function Managed(w: World, op: Op, a: Arrival): World {
    var w' := w.(mgr := Apply(w.mgr, op));
    match op
    case AddReader(addr) =>
      w'.(cams := w.cams[Session(addr, w.mgr.last + 1) :=
            Cam(C.Open(a.header, ZERO_HEADER, w.cap), L.Idle(a.count, a.heap))])
    case AddWriter(addr) =>
      w'.(heads := w.heads[Session(addr, w.mgr.last + 1) := Head(C.Open(ZERO_HEADER, a.header, w.cap), [], a.count)])
    case _ => w'
  }

  /** The writers `PostMessage` finds for a camera address. */
  ghost predicate AreTargets(m: State, addr: Addr, targets: seq<Session>) {
    Distinct(targets) && forall s :: s in targets <==> X.ListedAt(m, addr, s)
  }

  /** What the pool would hand to this camera's reader: its front buffer, or the leaky one. */
  predicate OffersHead(relay: L.Relay, offer: R.Slot) {
    if relay.pool.free != [] then
      relay.pool.free[0] in relay.heap && offer == R.Pooled(relay.heap[relay.pool.free[0]].bytes)
    else
      relay.pool.leaky.Some? && relay.pool.leaky.value in relay.heap &&
      offer == R.Leaky(relay.heap[relay.pool.leaky.value].bytes)
  }

  /** The fan-out holds the buffer the session is storing body bytes in. */
  predicate HoldsCurrent(relay: L.Relay) {
    relay.cur.Some? && relay.cur.value in relay.heap && P.Held(relay.pool, relay.cur.value)
  }

  ghost predicate CamEnabled(w: World, addr: Addr, c: Cam, e: C.Event, targets: seq<Session>) {
    && C.Enabled(c.conn, e)
    && AreTargets(w.mgr, addr, targets)
    && (e.Recv? ==> OffersHead(c.relay, e.offer))
    && (e.Recv? && c.conn.r.op.RecvBody? ==> HoldsCurrent(c.relay))
  }

  /** The memory after a body chunk has landed. */
  function Landed(c: C.Conn, e: C.Event): seq<Byte>
    requires e.Recv? && C.Enabled(c, e) && c.r.op.RecvBody?
  {
    R.Store(c.r.slot.memory, c.r.header.BytesWritten(), c.wire[c.consumed..c.consumed + e.n])
  }

  /** The fan-out's share of a completed receive: a buffer taken, bytes stored, a frame posted, or a leaky
      buffer let go. */
  ghost function Followed(w: World, addr: Addr, c: Cam, e: C.Event, targets: seq<Session>): L.Relay
    requires CamEnabled(w, addr, c, e, targets)
  {
    var r, r' := c.conn.r, C.Step(c.conn, e).r;
    if !e.Recv? then c.relay
    else if r.slot == R.NoBuffer && r'.slot != R.NoBuffer then L.Begin(c.relay)
    else if !r.op.RecvBody? then c.relay
    else
      var filled := L.Fill(c.relay, Landed(c.conn, e));
      if |r'.log| == |r.log| then filled
      else if !r.slot.Pooled? then L.Discard(filled)
      else L.Publish(filled, r.header.Counted().BytesWritten(), targets, w.mgr, |r.log|)
  }

  /** A copy is queued behind the others. */
  function Queued(h: Head, frame: seq<Byte>, tag: Tag): Head
    requires |frame| < U32 && |frame| <= h.conn.cap
  {
    h.(conn := C.Step(h.conn, C.Post(frame)), tags := h.tags + [tag])
  }

  predicate HasRoom(h: Head) {
    |h.conn.w.queue| < h.slots
  }

  predicate JobEnabled(w: World, cam: Session, i: nat) {
    && cam in w.cams && L.IsNext(w.cams[cam].relay, i)
    && w.cams[cam].relay.jobs[i].buf in w.cams[cam].relay.heap
    && P.Held(w.cams[cam].relay.pool, w.cams[cam].relay.jobs[i].buf)
    && |L.Copied(w.cams[cam].relay, i)| < U32 && |L.Copied(w.cams[cam].relay, i)| <= w.cap
    && w.cams[cam].relay.jobs[i].target in w.heads
    && w.heads[w.cams[cam].relay.jobs[i].target].conn.cap == w.cap
  }

  ghost predicate Enabled(w: World, e: Event) {
    match e
    case Manage(op, a) => ArrivalOk(a, w.cap)
    case OnCamera(s, ev, targets) => s in w.cams && CamEnabled(w, s.addr, w.cams[s], ev, targets)
    case OnHeadset(h, ev) => h in w.heads && !ev.Post? && C.Enabled(w.heads[h].conn, ev)
    case RunJob(s, i, _) => JobEnabled(w, s, i)
  }

  /** A job whose session is `live` and has a free copy buffer queues its copy; any other is skipped. */
  function JobDone(w: World, s: Session, i: nat, live: bool): World
    requires JobEnabled(w, s, i)
  {
    var c, t := w.cams[s], w.cams[s].relay.jobs[i];
    var copied := live && HasRoom(w.heads[t.target]);
    w.(cams := w.cams[s := c.(relay := L.Finish(c.relay, i, copied))],
       heads := if copied
                then w.heads[t.target := Queued(w.heads[t.target], L.Copied(c.relay, i), Tag(s, t.index))]
                else w.heads)
  }

  ghost function Step(w: World, e: Event): World
    requires Enabled(w, e)
  {
    match e
    case Manage(op, a) => Managed(w, op, a)
    case OnCamera(s, ev, targets) =>
      w.(cams := w.cams[s := Cam(C.Step(w.cams[s].conn, ev), Followed(w, s.addr, w.cams[s], ev, targets))])
    case OnHeadset(h, ev) => w.(heads := w.heads[h := w.heads[h].(conn := C.Step(w.heads[h].conn, ev))])
    case RunJob(s, i, live) => JobDone(w, s, i, live)
  }

  // ---- The invariant -----------------------------------------------------------------------

  /** The session's receive buffer is the memory the fan-out calls current, leaky or not. */
  ghost predicate Glued(c: Cam) {
    && (c.conn.r.slot == R.NoBuffer <==> c.relay.cur.None?)
    && (c.conn.r.slot.Leaky? <==> c.relay.cur.Some? && c.relay.cur == c.relay.pool.leaky)
    && (c.relay.cur.Some? ==>
          c.relay.cur.value in c.relay.heap && c.relay.heap[c.relay.cur.value].bytes == c.conn.r.slot.memory)
  }

  function Frames(posted: seq<L.Posting>): seq<seq<Byte>> {
    seq(|posted|, k requires 0 <= k < |posted| => posted[k].frame)
  }

  /** Postings are exactly the delivered frames of the link, in order, and each went to the writers assigned
      then. */
  ghost predicate PostingsOk(c: Cam, addr: Addr) {
    var posted, log := c.relay.posted, c.conn.r.log;
    && (forall k :: 0 <= k < |posted| ==>
          posted[k].pos < |log| && log[posted[k].pos] == R.Delivered(posted[k].frame) &&
          AreTargets(posted[k].at, addr, posted[k].targets))
    && (forall j, k :: 0 <= j < k < |posted| ==> posted[j].pos < posted[k].pos)
    && Frames(posted) == C.DeliveredFrames(log)
  }

  ghost predicate CamOk(c: Cam, addr: Addr, cap: nat) {
    && C.Inv(c.conn) && c.conn.cap == cap && L.Inv(c.relay) && Sized(c.relay.heap, cap)
    && Glued(c) && PostingsOk(c, addr)
  }

  /** What is queued for a headset is what its tags say, in each camera's order. */
  ghost predicate TagsOk(h: Session, d: Head, cams: map<Session, Cam>) {
    && |d.tags| == |d.conn.accepted|
    && (forall j :: 0 <= j < |d.tags| ==>
          d.tags[j].cam in cams &&
          var posted := cams[d.tags[j].cam].relay.posted;
          d.tags[j].index < |posted| && d.conn.accepted[j] == posted[d.tags[j].index].frame &&
          h in posted[d.tags[j].index].targets)
    && (forall i, j :: 0 <= i < j < |d.tags| && d.tags[i].cam == d.tags[j].cam ==> d.tags[i].index < d.tags[j].index)
  }

  /** Jobs still to run are later postings than anything queued. */
  ghost predicate JobsLater(h: Session, d: Head, cams: map<Session, Cam>) {
    forall i, j ::
      (0 <= j < |d.tags| && d.tags[j].cam in cams && 0 <= i < |cams[d.tags[j].cam].relay.jobs| &&
       cams[d.tags[j].cam].relay.jobs[i].target == h) ==>
        d.tags[j].index < cams[d.tags[j].cam].relay.jobs[i].index
  }

  /** The tags are the copies the cameras have made for this headset, each as often as it was made. */
  ghost predicate Tallied(h: Session, d: Head, cams: map<Session, Cam>) {
    forall s, k: nat :: s in cams ==> multiset(d.tags)[Tag(s, k)] == L.Occurs(cams[s].relay.made, h, k)
  }

  ghost predicate HeadOk(h: Session, d: Head, cams: map<Session, Cam>, cap: nat) {
    C.Inv(d.conn) && d.conn.cap == cap && TagsOk(h, d, cams) && JobsLater(h, d, cams) && Tallied(h, d, cams)
  }

  /** Whoever a frame was posted to has a session object. */
  ghost predicate TargetsKnown(posted: seq<L.Posting>, heads: map<Session, Head>) {
    forall k, t :: 0 <= k < |posted| && t in posted[k].targets ==> t in heads
  }

  /** ... and so has every registered writer. */
  ghost predicate WritersKnown(m: State, heads: map<Session, Head>) {
    forall a :: a in m.writers ==> m.writers[a] in heads
  }

  ghost predicate Inv(w: World) {
    && Wf(w.mgr) && WritersKnown(w.mgr, w.heads)
    && (forall s :: s in w.cams ==>
          s.id <= w.mgr.last && CamOk(w.cams[s], s.addr, w.cap) && TargetsKnown(w.cams[s].relay.posted, w.heads))
    && (forall h :: h in w.heads ==> h.id <= w.mgr.last && HeadOk(h, w.heads[h], w.cams, w.cap))
  }

  // ---- A camera's step ---------------------------------------------------------------------

  /** What one completed receive does to the buffer in hand and to the record of frames. */
  lemma ReceiveShape(c: C.Conn, e: C.Event)
    requires C.Inv(c) && e.Recv? && C.Enabled(c, e)
    ensures c.r.op.RecvBody? ==> c.r.slot != R.NoBuffer && |Landed(c, e)| == |c.r.slot.memory|
    ensures var r, r' := c.r, C.Step(c, e).r;
            && (!r.op.RecvBody? ==>
                  && r'.log == r.log
                  && r'.slot == (if r.slot == R.NoBuffer && r'.op.RecvBody? then e.offer else r.slot))
            && (r.op.RecvBody? ==>
                  || (r'.log == r.log && r'.slot == r.slot.(memory := Landed(c, e)))
                  || (r'.slot == R.NoBuffer && |r'.log| > |r.log| &&
                      r.header.Counted().BytesWritten() <= |Landed(c, e)|))
            && r.log <= r'.log
  {
    hide C.Inv, Header.Overlay, Header.OffsetPacket, Header.Counted, Header.Finished;
    hide Header.ResetHeader, Header.BytesWritten;
    CountedBound(c.r.header);
  }

  /** A finished frame is recorded as the bytes that landed, or as dropped. */
  lemma FinishShape(c: C.Conn, e: C.Event)
    requires C.Inv(c) && e.Recv? && C.Enabled(c, e) && c.r.op.RecvBody?
    requires |C.Step(c, e).r.log| > |c.r.log|
    ensures c.r.header.Counted().BytesWritten() <= |Landed(c, e)|
    ensures C.Step(c, e).r.log ==
            c.r.log + [if c.r.slot.Pooled? then R.Delivered(Landed(c, e)[..c.r.header.Counted().BytesWritten()])
                       else R.Dropped]
  {
    hide C.Inv, Header.Overlay, Header.OffsetPacket, Header.Counted, Header.Finished;
    hide Header.ResetHeader, Header.BytesWritten;
    CountedBound(c.r.header);
  }

  /** A fan-out only grows: earlier postings and jobs stay, and new jobs are for new postings. */
  ghost predicate Grows(r: L.Relay, r': L.Relay) {
    && r.posted <= r'.posted && r.jobs <= r'.jobs && r.made == r'.made
    && forall i :: |r.jobs| <= i < |r'.jobs| ==> r'.jobs[i].index >= |r.posted|
  }

  /** New postings go to writers of the manager's. */
  ghost predicate PostsTo(r: L.Relay, r': L.Relay, targets: seq<Session>) {
    forall k :: |r.posted| <= k < |r'.posted| ==> r'.posted[k].targets == targets
  }

  lemma BeginOk(w: World, addr: Addr, c: Cam, e: C.Event, targets: seq<Session>)
    requires CamOk(c, addr, w.cap) && CamEnabled(w, addr, c, e, targets)
    requires e.Recv? && !c.conn.r.op.RecvBody?
    ensures CamOk(Cam(C.Step(c.conn, e), Followed(w, addr, c, e, targets)), addr, w.cap)
    ensures Grows(c.relay, Followed(w, addr, c, e, targets))
    ensures PostsTo(c.relay, Followed(w, addr, c, e, targets), targets)
  {
    hide C.Inv, L.Inv, C.Step, C.Enabled, AreTargets, P.Take, Frames, C.DeliveredFrames;
    C.StepKeeps(c.conn, e);
    C.StepFrame(c.conn, e);
    ReceiveShape(c.conn, e);
    if c.conn.r.slot == R.NoBuffer && C.Step(c.conn, e).r.slot != R.NoBuffer {
      L.BeginKeeps(c.relay);
    }
  }

  lemma StoreOk(w: World, addr: Addr, c: Cam, e: C.Event, targets: seq<Session>)
    requires CamOk(c, addr, w.cap) && CamEnabled(w, addr, c, e, targets)
    requires e.Recv? && c.conn.r.op.RecvBody? && |C.Step(c.conn, e).r.log| == |c.conn.r.log|
    ensures CamOk(Cam(C.Step(c.conn, e), Followed(w, addr, c, e, targets)), addr, w.cap)
    ensures Grows(c.relay, Followed(w, addr, c, e, targets))
    ensures PostsTo(c.relay, Followed(w, addr, c, e, targets), targets)
  {
    hide C.Inv, L.Inv, C.Step, C.Enabled, AreTargets, Landed, Frames, C.DeliveredFrames;
    C.StepKeeps(c.conn, e);
    C.StepFrame(c.conn, e);
    ReceiveShape(c.conn, e);
    L.FillKeeps(c.relay, Landed(c.conn, e));
  }

  /** A frame in the leaky buffer ends: dropped from the record, let go by the fan-out. */
  lemma DiscardOk(w: World, addr: Addr, c: Cam, e: C.Event, targets: seq<Session>)
    requires CamOk(c, addr, w.cap) && CamEnabled(w, addr, c, e, targets)
    requires e.Recv? && c.conn.r.op.RecvBody? && !c.conn.r.slot.Pooled? && |C.Step(c.conn, e).r.log| > |c.conn.r.log|
    ensures CamOk(Cam(C.Step(c.conn, e), Followed(w, addr, c, e, targets)), addr, w.cap)
    ensures Grows(c.relay, Followed(w, addr, c, e, targets))
    ensures PostsTo(c.relay, Followed(w, addr, c, e, targets), targets)
  {
    hide C.Inv, L.Inv, C.Step, C.Enabled, AreTargets, Landed, Frames, C.DeliveredFrames, P.Release;
    C.StepKeeps(c.conn, e);
    C.StepFrame(c.conn, e);
    ReceiveShape(c.conn, e);
    FinishShape(c.conn, e);
    C.DeliveredAppend(c.conn.r.log, R.Dropped);
    L.FillKeeps(c.relay, Landed(c.conn, e));
    L.DiscardKeeps(L.Fill(c.relay, Landed(c.conn, e)));
  }

  lemma TargetsDistinct(m: State, addr: Addr, targets: seq<Session>)
    requires AreTargets(m, addr, targets)
    ensures Distinct(targets)
  {
  }

  /** Delivering one more frame and posting it keeps postings and deliveries in agreement. */
  lemma PostingsGrow(c: Cam, d: Cam, addr: Addr, p: L.Posting)
    requires PostingsOk(c, addr) && d.relay.posted == c.relay.posted + [p]
    requires d.conn.r.log == c.conn.r.log + [R.Delivered(p.frame)] && p.pos == |c.conn.r.log|
    requires AreTargets(p.at, addr, p.targets)
    ensures PostingsOk(d, addr)
  {
    hide AreTargets, C.DeliveredFrames;
    C.DeliveredAppend(c.conn.r.log, R.Delivered(p.frame));
    assert Frames(d.relay.posted) == Frames(c.relay.posted) + [p.frame];
  }

  lemma PublishOk(w: World, addr: Addr, c: Cam, e: C.Event, targets: seq<Session>)
    requires CamOk(c, addr, w.cap) && CamEnabled(w, addr, c, e, targets)
    requires e.Recv? && c.conn.r.op.RecvBody? && c.conn.r.slot.Pooled? && |C.Step(c.conn, e).r.log| > |c.conn.r.log|
    ensures CamOk(Cam(C.Step(c.conn, e), Followed(w, addr, c, e, targets)), addr, w.cap)
    ensures Grows(c.relay, Followed(w, addr, c, e, targets))
    ensures PostsTo(c.relay, Followed(w, addr, c, e, targets), targets)
  {
    hide C.Inv, L.Inv, C.Step, C.Enabled, AreTargets, Landed, P.Release, PostingsOk;
    C.StepKeeps(c.conn, e);
    C.StepFrame(c.conn, e);
    ReceiveShape(c.conn, e);
    FinishShape(c.conn, e);
    var filled, used := L.Fill(c.relay, Landed(c.conn, e)), c.conn.r.header.Counted().BytesWritten();
    L.FillKeeps(c.relay, Landed(c.conn, e));
    TargetsDistinct(w.mgr, addr, targets);
    L.PublishKeeps(filled, used, targets, w.mgr, |c.conn.r.log|);
    var relay := Followed(w, addr, c, e, targets);
    PostingsGrow(c, Cam(C.Step(c.conn, e), relay), addr, relay.posted[|c.relay.posted|]);
  }

  lemma LogGrows(w: World, addr: Addr, c: Cam, e: C.Event, targets: seq<Session>)
    requires CamOk(c, addr, w.cap) && CamEnabled(w, addr, c, e, targets) && e.Recv?
    ensures C.Enabled(c.conn, e) && |C.Step(c.conn, e).r.log| >= |c.conn.r.log|
  {
    hide C.Inv, L.Inv, C.Step, C.Enabled;
    ReceiveShape(c.conn, e);
  }

  lemma QuietOk(w: World, addr: Addr, c: Cam, e: C.Event, targets: seq<Session>)
    requires CamOk(c, addr, w.cap) && CamEnabled(w, addr, c, e, targets) && !e.Recv?
    ensures CamOk(Cam(C.Step(c.conn, e), Followed(w, addr, c, e, targets)), addr, w.cap)
    ensures Grows(c.relay, Followed(w, addr, c, e, targets))
    ensures PostsTo(c.relay, Followed(w, addr, c, e, targets), targets)
  {
    hide C.Inv, L.Inv, AreTargets;
    C.StepKeeps(c.conn, e);
    assert C.Step(c.conn, e).r == c.conn.r;
  }

  /** Every event on a camera's link keeps its fan-out in step with it. */
  lemma CameraStepOk(w: World, addr: Addr, c: Cam, e: C.Event, targets: seq<Session>)
    requires CamOk(c, addr, w.cap) && CamEnabled(w, addr, c, e, targets)
    ensures CamOk(Cam(C.Step(c.conn, e), Followed(w, addr, c, e, targets)), addr, w.cap)
    ensures Grows(c.relay, Followed(w, addr, c, e, targets))
    ensures PostsTo(c.relay, Followed(w, addr, c, e, targets), targets)
  {
    hide CamOk, Followed, Grows, CamEnabled, PostsTo;
    if !e.Recv? {
      QuietOk(w, addr, c, e, targets);
    } else if !c.conn.r.op.RecvBody? {
      BeginOk(w, addr, c, e, targets);
    } else {
      LogGrows(w, addr, c, e, targets);
      if |C.Step(c.conn, e).r.log| == |c.conn.r.log| {
        StoreOk(w, addr, c, e, targets);
      } else if c.conn.r.slot.Pooled? {
        PublishOk(w, addr, c, e, targets);
      } else {
        DiscardOk(w, addr, c, e, targets);
      }
    }
  }

  // ---- Headsets ----------------------------------------------------------------------------

  /** A headset's record survives any growth of a camera's fan-out. */
  lemma GrowthKeepsHead(h: Session, d: Head, cams: map<Session, Cam>, cap: nat, s: Session, c': Cam)
    requires HeadOk(h, d, cams, cap) && s in cams && Grows(cams[s].relay, c'.relay)
    ensures HeadOk(h, d, cams[s := c'], cap)
  {
    hide C.Inv, L.Occurs;
  }

  lemma NewCamKeepsHead(h: Session, d: Head, cams: map<Session, Cam>, cap: nat, s: Session, c': Cam)
    requires HeadOk(h, d, cams, cap) && s !in cams && c'.relay.made == []
    ensures HeadOk(h, d, cams[s := c'], cap)
  {
    hide C.Inv;
    forall k: nat
      ensures Tag(s, k) !in multiset(d.tags)
    {
      assert Tag(s, k) !in d.tags;
    }
  }

  lemma FinishTallied(h: Session, r: L.Relay, i: nat, copied: bool)
    requires i < |r.jobs|
    ensures forall k: nat ::
              L.Occurs(L.Finish(r, i, copied).made, h, k) ==
              L.Occurs(r.made, h, k) + if copied && r.jobs[i].target == h && r.jobs[i].index == k then 1 else 0
  {
    hide L.Occurs, P.Release;
    forall k: nat
      ensures L.Occurs(L.Finish(r, i, copied).made, h, k) ==
              L.Occurs(r.made, h, k) + if copied && r.jobs[i].target == h && r.jobs[i].index == k then 1 else 0
    {
      L.OccursMoved(r.jobs, i, r.made, h, k);
    }
  }

  /** Running a job of some headset leaves the others' records intact. */
  lemma FinishKeepsHead(h: Session, d: Head, cams: map<Session, Cam>, cap: nat, s: Session, i: nat, copied: bool)
    requires HeadOk(h, d, cams, cap) && s in cams && i < |cams[s].relay.jobs|
    requires copied ==> cams[s].relay.jobs[i].target != h
    ensures HeadOk(h, d, cams[s := cams[s].(relay := L.Finish(cams[s].relay, i, copied))], cap)
  {
    hide C.Inv, L.Occurs, P.Release;
    FinishTallied(h, cams[s].relay, i, copied);
  }

  lemma QueueTallied(h: Session, d: Head, cams: map<Session, Cam>, s: Session, i: nat, frame: seq<Byte>)
    requires Tallied(h, d, cams) && s in cams && i < |cams[s].relay.jobs| && cams[s].relay.jobs[i].target == h
    requires |frame| < U32 && |frame| <= d.conn.cap
    ensures Tallied(h, Queued(d, frame, Tag(s, cams[s].relay.jobs[i].index)),
                    cams[s := cams[s].(relay := L.Finish(cams[s].relay, i, true))])
  {
    hide L.Occurs, L.Finish, C.Step;
    FinishTallied(h, cams[s].relay, i, true);
    var tag := Tag(s, cams[s].relay.jobs[i].index);
    assert multiset(d.tags + [tag]) == multiset(d.tags) + multiset{tag};
  }

  /** The headset whose job ran has its copy queued, tagged, in order. */
  lemma QueueKeepsHead(h: Session, d: Head, cams: map<Session, Cam>, cap: nat, s: Session, i: nat, frame: seq<Byte>)
    requires HeadOk(h, d, cams, cap) && s in cams && L.Inv(cams[s].relay) && L.IsNext(cams[s].relay, i)
    requires cams[s].relay.jobs[i].target == h && |frame| < U32 && |frame| <= cap
    requires cams[s].relay.jobs[i].index < |cams[s].relay.posted|
    requires frame == cams[s].relay.posted[cams[s].relay.jobs[i].index].frame
    requires h in cams[s].relay.posted[cams[s].relay.jobs[i].index].targets
    ensures HeadOk(h, Queued(d, frame, Tag(s, cams[s].relay.jobs[i].index)),
                   cams[s := cams[s].(relay := L.Finish(cams[s].relay, i, true))], cap)
  {
    hide C.Inv, P.Conserves, L.Counted, L.Intact, L.Accounted, Tallied, P.Release;
    C.StepKeeps(d.conn, C.Post(frame));
    QueueTallied(h, d, cams, s, i, frame);
  }

  // ---- Every step --------------------------------------------------------------------------

  lemma LastGrows(m: State, op: Op)
    ensures m.last <= Apply(m, op).last
    ensures op.AddReader? || op.AddWriter? ==> Apply(m, op).last == m.last + 1
  {
  }

  lemma WritersStayKnown(w: World, op: Op, a: Arrival)
    requires Wf(w.mgr) && WritersKnown(w.mgr, w.heads)
    ensures WritersKnown(Managed(w, op, a).mgr, Managed(w, op, a).heads)
  {
  }

  lemma NewCamOk(addr: Addr, cap: nat, a: Arrival)
    requires ArrivalOk(a, cap)
    ensures CamOk(Cam(C.Open(a.header, ZERO_HEADER, cap), L.Idle(a.count, a.heap)), addr, cap)
  {
    hide C.Inv;
    C.OpenInv(a.header, ZERO_HEADER, cap);
    P.FreshConserves(a.count, true);
    var free := P.Fresh(a.count, true).free;
    assert forall b :: b in a.heap.Keys <==> b in free || b == a.count by {
      forall b: nat | b < a.count
        ensures b in free
      {
        assert free[b] == b;
      }
    }
    assert a.heap.Keys == P.Made(a.count, true);
  }

  lemma NothingMade(r: L.Relay, h: Session, k: nat)
    requires L.Inv(r) && forall j :: 0 <= j < |r.posted| ==> h !in r.posted[j].targets
    ensures L.Occurs(r.made, h, k) == 0
  {
    hide P.Conserves, L.Counted, L.Intact, L.Ordered, L.Occurs;
    if k >= |r.posted| {
      L.NoneOf(r.made, h, k);
    }
  }

  lemma FreshHeadOk(h: Session, d: Head, cams: map<Session, Cam>, cap: nat)
    requires C.Inv(d.conn) && d.conn.cap == cap && d.tags == [] && d.conn.accepted == [] && Tallied(h, d, cams)
    ensures HeadOk(h, d, cams, cap)
  {
    hide C.Inv, Tallied;
  }

  /** A new headset has had no copies: it is no posting's target. */
  lemma NewHeadOk(h: Session, w: World, a: Arrival)
    requires Inv(w) && h !in w.heads
    ensures HeadOk(h, Head(C.Open(ZERO_HEADER, a.header, w.cap), [], a.count), w.cams, w.cap)
  {
    hide C.Inv, P.Conserves, L.Counted, L.Intact, L.Ordered, L.Occurs, Glued, PostingsOk, HeadOk, Wf, WritersKnown;
    C.OpenInv(ZERO_HEADER, a.header, w.cap);
    var d := Head(C.Open(ZERO_HEADER, a.header, w.cap), [], a.count);
    forall s, k: nat | s in w.cams
      ensures multiset(d.tags)[Tag(s, k)] == L.Occurs(w.cams[s].relay.made, h, k)
    {
      NothingMade(w.cams[s].relay, h, k);
    }
    FreshHeadOk(h, d, w.cams, w.cap);
  }

  lemma ManageKeeps(w: World, op: Op, a: Arrival)
    requires Inv(w) && ArrivalOk(a, w.cap)
    ensures Inv(Managed(w, op, a))
  {
    hide Wf, Apply, CamOk, HeadOk, WritersKnown;
    ApplyWf(w.mgr, op);
    LastGrows(w.mgr, op);
    WritersStayKnown(w, op, a);
    var w' := Managed(w, op, a);
    if op.AddReader? {
      var s := Session(op.addr, w.mgr.last + 1);
      NewCamOk(op.addr, w.cap, a);
      forall h | h in w.heads
        ensures HeadOk(h, w.heads[h], w'.cams, w.cap)
      {
        NewCamKeepsHead(h, w.heads[h], w.cams, w.cap, s, w'.cams[s]);
      }
    } else if op.AddWriter? {
      NewHeadOk(Session(op.addr, w.mgr.last + 1), w, a);
    }
  }

  /** A camera's new postings go to sessions there are. */
  lemma PostingsStayKnown(w: World, s: Session, e: C.Event, targets: seq<Session>, r': L.Relay)
    requires Inv(w) && s in w.cams && AreTargets(w.mgr, s.addr, targets)
    requires Grows(w.cams[s].relay, r') && PostsTo(w.cams[s].relay, r', targets)
    ensures TargetsKnown(r'.posted, w.heads)
  {
    hide Wf, CamOk, HeadOk;
    assert TargetsKnown(w.cams[s].relay.posted, w.heads);
    forall t | t in targets
      ensures t in w.heads
    {
      assert X.ListedAt(w.mgr, s.addr, t);
    }
  }

  lemma OnCameraKeeps(w: World, s: Session, e: C.Event, targets: seq<Session>)
    requires Inv(w) && Enabled(w, OnCamera(s, e, targets))
    ensures Inv(Step(w, OnCamera(s, e, targets)))
  {
    hide Wf, WritersKnown, CamOk, HeadOk, Grows, PostsTo, AreTargets, Followed, TargetsKnown, C.Enabled, C.Step;
    CameraStepOk(w, s.addr, w.cams[s], e, targets);
    var c' := Cam(C.Step(w.cams[s].conn, e), Followed(w, s.addr, w.cams[s], e, targets));
    PostingsStayKnown(w, s, e, targets, c'.relay);
    forall h | h in w.heads
      ensures HeadOk(h, w.heads[h], w.cams[s := c'], w.cap)
    {
      GrowthKeepsHead(h, w.heads[h], w.cams, w.cap, s, c');
    }
  }

  lemma HeadStepOk(h: Session, d: Head, cams: map<Session, Cam>, cap: nat, e: C.Event)
    requires HeadOk(h, d, cams, cap) && !e.Post? && C.Enabled(d.conn, e)
    ensures HeadOk(h, d.(conn := C.Step(d.conn, e)), cams, cap)
  {
    hide C.Inv, C.Step, C.Enabled, L.Occurs;
    C.StepKeeps(d.conn, e);
    C.TransfersAcceptNothing(d.conn, e);
  }

  lemma OnHeadsetKeeps(w: World, h: Session, e: C.Event)
    requires Inv(w) && Enabled(w, OnHeadset(h, e))
    ensures Inv(Step(w, OnHeadset(h, e)))
  {
    hide Wf, CamOk, HeadOk, C.Enabled, C.Step;
    HeadStepOk(h, w.heads[h], w.cams, w.cap, e);
  }

  lemma FinishedCamOk(c: Cam, addr: Addr, cap: nat, i: nat, copied: bool)
    requires CamOk(c, addr, cap) && L.IsNext(c.relay, i)
    ensures c.relay.jobs[i].buf in c.relay.heap
    ensures CamOk(c.(relay := L.Finish(c.relay, i, copied)), addr, cap) && L.Inv(c.relay)
    ensures L.Finish(c.relay, i, copied).posted == c.relay.posted
    ensures c.relay.jobs[i].index < |c.relay.posted|
    ensures L.Copied(c.relay, i) == c.relay.posted[c.relay.jobs[i].index].frame
    ensures c.relay.jobs[i].target in c.relay.posted[c.relay.jobs[i].index].targets
  {
    hide C.Inv, L.Inv, AreTargets;
    L.FinishKeeps(c.relay, i, copied);
    L.CurrentStays(c.relay, i);
  }

  lemma RunJobKeeps(w: World, s: Session, i: nat, live: bool)
    requires Inv(w) && Enabled(w, RunJob(s, i, live))
    ensures Inv(Step(w, RunJob(s, i, live)))
  {
    hide Wf, CamOk, HeadOk, L.Inv, L.Finish, L.Copied;
    var c, t := w.cams[s], w.cams[s].relay.jobs[i];
    var copied, w' := live && HasRoom(w.heads[t.target]), JobDone(w, s, i, live);
    assert w'.heads.Keys == w.heads.Keys;
    FinishedCamOk(c, s.addr, w.cap, i, copied);
    forall h | h in w.heads
      ensures HeadOk(h, w'.heads[h], w'.cams, w.cap)
    {
      if copied && h == t.target {
        QueueKeepsHead(h, w.heads[h], w.cams, w.cap, s, i, L.Copied(c.relay, i));
      } else {
        FinishKeepsHead(h, w.heads[h], w.cams, w.cap, s, i, copied);
      }
    }
  }

  lemma StepKeeps(w: World, e: Event)
    requires Inv(w) && Enabled(w, e)
    ensures Inv(Step(w, e))
  {
    hide Inv, Managed, CamEnabled, JobDone, JobEnabled;
    match e
    case Manage(op, a) => ManageKeeps(w, op, a);
    case OnCamera(s, ev, targets) => OnCameraKeeps(w, s, ev, targets);
    case OnHeadset(h, ev) => OnHeadsetKeeps(w, h, ev);
    case RunJob(s, i, live) => RunJobKeeps(w, s, i, live);
  }

  // ---- Whole runs --------------------------------------------------------------------------

  ghost predicate Legal(w: World, es: seq<Event>)
    decreases |es|
  {
    es == [] || (Enabled(w, es[0]) && Legal(Step(w, es[0]), es[1..]))
  }

  ghost function Run(w: World, es: seq<Event>): World
    requires Legal(w, es)
    decreases |es|
  {
    if es == [] then w else Run(Step(w, es[0]), es[1..])
  }

  lemma {:induction false} RunKeeps(w: World, es: seq<Event>)
    requires Inv(w) && Legal(w, es)
    ensures Inv(Run(w, es))
    decreases |es|
  {
    hide Inv, Step, Enabled;
    if es == [] {
    } else {
      StepKeeps(w, es[0]);
      RunKeeps(Step(w, es[0]), es[1..]);
    }
  }

  lemma StartInv(cap: nat)
    ensures Inv(Start(cap))
  {
  }

  /** The origin of the j-th frame queued for a headset. */
  ghost function Origin(w: World, h: Session, j: nat): L.Posting
    requires Inv(w) && h in w.heads && j < |w.heads[h].tags|
  {
    w.cams[w.heads[h].tags[j].cam].relay.posted[w.heads[h].tags[j].index]
  }

  /** Every frame a headset reassembles equals, byte for byte, a frame its camera put on its own link, and
      the headset was assigned to that camera when the frame was posted. */
  lemma FrameIsGenuine(w: World, h: Session, j: nat)
    requires Inv(w) && h in w.heads && j < |w.heads[h].conn.r.log| && w.heads[h].conn.r.log[j].Delivered?
    ensures j < |w.heads[h].tags| && w.heads[h].tags[j].cam in w.cams
    ensures var s, o := w.heads[h].tags[j].cam, Origin(w, h, j);
            && o.pos < |w.cams[s].conn.accepted|
            && w.heads[h].conn.r.log[j].frame == w.cams[s].conn.accepted[o.pos]
            && X.ListedAt(o.at, s.addr, h)
  {
    hide C.Inv, L.Inv, JobsLater, Glued;
    var d := w.heads[h];
    C.InvMeans(d.conn);
    assert d.conn.r.log[j] == R.Delivered(d.conn.accepted[j]);
    var s := d.tags[j].cam;
    assert CamOk(w.cams[s], s.addr, w.cap);
    C.InvMeans(w.cams[s].conn);
  }

  /** ... and frames of one camera arrive in that camera's order. */
  lemma OrderIsKept(w: World, h: Session, i: nat, j: nat)
    requires Inv(w) && h in w.heads && i < j < |w.heads[h].tags|
    requires w.heads[h].tags[i].cam == w.heads[h].tags[j].cam
    ensures Origin(w, h, i).pos < Origin(w, h, j).pos
  {
    hide C.Inv, L.Inv, JobsLater, Glued;
    var s := w.heads[h].tags[i].cam;
    assert CamOk(w.cams[s], s.addr, w.cap);
  }

  /** End-to-end relay, over every run: whatever a headset has reassembled, frame by frame, is a frame of
      the camera it was assigned to at post time, unaltered, and in that camera's order, although buffers
      are reused and overwritten all along. */
  lemma RelayIsFaithful(cap: nat, es: seq<Event>, h: Session, i: nat, j: nat)
    requires Legal(Start(cap), es) && h in Run(Start(cap), es).heads
    requires i <= j < |Run(Start(cap), es).heads[h].conn.r.log|
    requires Run(Start(cap), es).heads[h].conn.r.log[i].Delivered?
    requires Run(Start(cap), es).heads[h].conn.r.log[j].Delivered?
    ensures var w := Run(Start(cap), es);
            && Inv(w) && j < |w.heads[h].tags|
            && var s, o := w.heads[h].tags[j].cam, Origin(w, h, j);
            && s in w.cams && o.pos < |w.cams[s].conn.accepted|
            && w.heads[h].conn.r.log[j].frame == w.cams[s].conn.accepted[o.pos]
            && X.ListedAt(o.at, s.addr, h)
            && (i < j && w.heads[h].tags[i].cam == s ==> Origin(w, h, i).pos < o.pos)
  {
    hide Inv, Legal;
    StartInv(cap);
    RunKeeps(Start(cap), es);
    var w := Run(Start(cap), es);
    FrameIsGenuine(w, h, j);
    if i < j && w.heads[h].tags[i].cam == w.heads[h].tags[j].cam {
      OrderIsKept(w, h, i, j);
    }
  }

  lemma {:induction false} CapKept(w: World, es: seq<Event>)
    requires Legal(w, es)
    ensures Run(w, es).cap == w.cap
    decreases |es|
  {
    if es == [] {
    } else {
      CapKept(Step(w, es[0]), es[1..]);
    }
  }

  /** The fan-out is exact, over every run: every delivered frame of a camera is posted, in order; each posting
      has exactly one job, still to run, done or skipped, for each writer listed at the camera when it was
      posted, and none for anybody else; and the jobs done are exactly the copies queued for the headset. */
  lemma FanOutIsExact(cap: nat, es: seq<Event>, s: Session, k: nat, t: Session)
    requires Legal(Start(cap), es) && s in Run(Start(cap), es).cams
    requires k < |Run(Start(cap), es).cams[s].relay.posted|
    ensures var w, c := Run(Start(cap), es), Run(Start(cap), es).cams[s];
            && Frames(c.relay.posted) == C.DeliveredFrames(c.conn.r.log)
            && L.Occurs(c.relay.jobs, t, k) + L.Occurs(c.relay.made, t, k) + L.Occurs(c.relay.skipped, t, k) ==
               (if X.ListedAt(c.relay.posted[k].at, s.addr, t) then 1 else 0)
            && (t in w.heads ==> multiset(w.heads[t].tags)[Tag(s, k)] == L.Occurs(c.relay.made, t, k))
            && (X.ListedAt(c.relay.posted[k].at, s.addr, t) ==> t in w.heads)
  {
    hide Legal, Run, Wf, C.Inv, Glued, L.Intact, L.Counted, L.Ordered, P.Conserves, L.Occurs, X.ListedAt;
    hide TagsOk, JobsLater, WritersKnown;
    StartInv(cap);
    RunKeeps(Start(cap), es);
    var c := Run(Start(cap), es).cams[s];
    assert CamOk(c, s.addr, cap) by { CapKept(Start(cap), es); }
  }

  lemma AcceptedFit(c: C.Conn)
    requires C.Inv(c)
    ensures forall f :: f in c.accepted ==> |f| <= c.cap
  {
  }

  lemma StoringHasBuffer(c: C.Conn)
    requires C.Inv(c) && c.r.op.RecvBody?
    ensures c.r.slot != R.NoBuffer
  {
  }

  lemma PostedOne(f: Frame)
    ensures C.Posted([C.Post(f)]) == [f]
  {
    assert C.Posted([C.Post(f)][1..]) == [];
  }

  /** The job's target has accepted exactly the posted frame if the session is live and fewer frames were queued
      than it has copy buffers, and nothing otherwise. No other headset is touched, and the job is gone. */
  ghost predicate JobDid(w: World, w': World, s: Session, i: nat, live: bool)
    requires s in w.cams && i < |w.cams[s].relay.jobs|
  {
    var job := w.cams[s].relay.jobs[i];
    var h := job.target;
    && job.index < |w.cams[s].relay.posted| && h in w.heads && w'.heads.Keys == w.heads.Keys
    && w'.heads[h].conn.accepted ==
       w.heads[h].conn.accepted +
       (if live && |w.heads[h].conn.w.queue| < w.heads[h].slots
        then [w.cams[s].relay.posted[job.index].frame] else [])
    && (forall g :: g in w.heads && g != h ==> w'.heads[g] == w.heads[g])
    && w'.mgr == w.mgr && w'.cams.Keys == w.cams.Keys
    && (forall c :: c in w.cams && c != s ==> w'.cams[c] == w.cams[c])
    && w'.cams[s].conn == w.cams[s].conn && w'.cams[s].relay.jobs == RemoveAt(w.cams[s].relay.jobs, i)
  }

  /** When a job makes its copy: in terms of the headset's link, not of how the step is computed. */
  lemma CopyIsQueuedIff(w: World, s: Session, i: nat, live: bool, w': World)
    requires Enabled(w, RunJob(s, i, live)) && w' == Step(w, RunJob(s, i, live))
    requires Inv(w)
    ensures JobDid(w, w', s, i, live)
  {
    hide C.Inv, L.Inv, Wf, WritersKnown, L.Copied, P.Release, HeadOk, CamOk, C.Step, TargetsKnown;
    var job := w.cams[s].relay.jobs[i];
    FinishedCamOk(w.cams[s], s.addr, w.cap, i, true);
    C.StepFrame(w.heads[job.target].conn, C.Post(L.Copied(w.cams[s].relay, i)));
    PostedOne(L.Copied(w.cams[s].relay, i));
  }

  /** A headset's session has as many copy buffers as it was made with, throughout. */
  lemma SlotsAreGiven(w: World, e: Event)
    requires Inv(w) && Enabled(w, e)
    ensures forall h :: h in w.heads ==> h in Step(w, e).heads && Step(w, e).heads[h].slots == w.heads[h].slots
    ensures e.Manage? && e.op.AddWriter? ==>
              var h := Session(e.op.addr, w.mgr.last + 1);
              h !in w.heads && h in Step(w, e).heads && Step(w, e).heads[h].slots == e.arrival.count
  {
    hide Wf, WritersKnown, CamOk, HeadOk, C.Step, C.Enabled, L.Finish, L.Copied, Apply;
  }

  lemma WritersAreAtHome(m: State)
    requires Wf(m)
    ensures forall a :: a in m.writers ==> m.writers[a].addr == a
  {
  }

  /** The writers listed at a camera can be enumerated. */
  lemma TargetsExist(m: State, addr: Addr) returns (targets: seq<Session>)
    requires Wf(m)
    ensures AreTargets(m, addr, targets)
  {
    hide Sorted, Wf;
    WritersAreAtHome(m);
    var listed := set a | a in m.writers && X.ListedAt(m, addr, m.writers[a]);
    var keys := Sorted(listed);
    targets := seq(|keys|, i requires 0 <= i < |keys| => assert keys[i] in keys; m.writers[keys[i]]);
    forall i | 0 <= i < |keys|
      ensures targets[i].addr == keys[i] && keys[i] in listed && targets[i] == m.writers[keys[i]]
    {
      assert keys[i] in keys;
    }
    forall s | X.ListedAt(m, addr, s)
      ensures s in targets
    {
      assert s.addr in keys;
      var i :| 0 <= i < |keys| && keys[i] == s.addr;
      assert targets[i] == s;
    }
  }

  /** Exactly one buffer is on offer, and it has the right size. */
  lemma OneOffer(w: World, s: Session) returns (offer: R.Slot)
    requires Inv(w) && s in w.cams
    ensures OffersHead(w.cams[s].relay, offer) && |offer.memory| == w.cap
    ensures forall other :: OffersHead(w.cams[s].relay, other) ==> other == offer
  {
    hide C.Inv, L.Inv, Wf, WritersKnown;
    var r := w.cams[s].relay;
    assert CamOk(w.cams[s], s.addr, w.cap);
    L.LeakyIsNotFree(r);
    offer := if r.pool.free == [] then R.Leaky(r.heap[r.pool.leaky.value].bytes)
             else R.Pooled(r.heap[r.pool.free[0]].bytes);
  }

  lemma NextJobIsEnabled(w: World, s: Session, i: nat)
    requires Inv(w) && s in w.cams && L.IsNext(w.cams[s].relay, i)
    ensures JobEnabled(w, s, i)
  {
    hide C.Inv, L.Inv, Wf, WritersKnown;
    var c := w.cams[s];
    assert CamOk(c, s.addr, w.cap) && TargetsKnown(c.relay.posted, w.heads);
    L.FinishKeeps(c.relay, i, true);
    C.InvMeans(c.conn);
    AcceptedFit(c.conn);
    assert HeadOk(c.relay.jobs[i].target, w.heads[c.relay.jobs[i].target], w.cams, w.cap);
  }

  /** The guards of the steps never exclude what the program can do: any event of a camera's link is a step, if
      a receive is offered what the pool has to offer, which is exactly one buffer of the right size; and any
      headset's next job is one, live or not, whatever else is going on. */
  lemma NothingIsExcluded(w: World, s: Session, e: C.Event, i: nat)
    requires Inv(w) && s in w.cams
    ensures exists offer :: OffersHead(w.cams[s].relay, offer) && |offer.memory| == w.cap
    ensures C.Enabled(w.cams[s].conn, e) && (e.Recv? ==> OffersHead(w.cams[s].relay, e.offer)) ==>
              exists targets :: Enabled(w, OnCamera(s, e, targets))
    ensures L.IsNext(w.cams[s].relay, i) ==> forall live :: Enabled(w, RunJob(s, i, live))
  {
    hide C.Inv, L.Inv, Wf, WritersKnown, C.Enabled, OffersHead, AreTargets, JobEnabled, HeadOk;
    var c := w.cams[s];
    assert CamOk(c, s.addr, w.cap);
    var offer := OneOffer(w, s);
    var targets := TargetsExist(w.mgr, s.addr);
    if c.conn.r.op.RecvBody? {
      StoringHasBuffer(c.conn);
      L.CurrentIsHeld(c.relay);
    }
    if C.Enabled(c.conn, e) && (e.Recv? ==> OffersHead(c.relay, e.offer)) {
      assert Enabled(w, OnCamera(s, e, targets));
    }
    if L.IsNext(c.relay, i) {
      NextJobIsEnabled(w, s, i);
    }
  }
}
