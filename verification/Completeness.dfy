/** Nothing is lost on the way from camera to headset: once everything has settled, and if no buffer was ever
    missing, each headset has exactly the frames posted while it was listed. */
module Completeness {
  import opened Packet
  import opened Wire
  import opened AddressOrder
  import A = Assignment
  import opened EndToEnd
  import R = ReadChain
  import C = Connection
  import X = ConnectionIndex
  import L = Relay
  import P = Pools

  // ---- Increasing sequences ----------------------------------------------------------------

  ghost predicate Increasing(ks: seq<nat>) {
    forall i, j :: 0 <= i < j < |ks| ==> ks[i] < ks[j]
  }

  ghost predicate Alike(a: seq<nat>, b: seq<nat>) {
    forall x :: x in a <==> x in b
  }

  lemma AlikeNonempty(a: seq<nat>, b: seq<nat>)
    requires Alike(a, b) && b != []
    ensures a != []
  {
    assert b[0] in a;
  }

  lemma LastIsTop(a: seq<nat>, x: nat)
    requires Increasing(a) && x in a
    ensures x <= a[|a| - 1]
  {
  }

  lemma IncreasingAppend(a: seq<nat>, x: nat)
    requires Increasing(a) && forall y :: y in a ==> y < x
    ensures Increasing(a + [x])
  {
    forall i | 0 <= i < |a|
      ensures a[i] < x
    {
      assert a[i] in a;
    }
  }

  /** Two sequences that agree as sets and end alike, without repeats, agree as sets before the end. */
  lemma SameFronts(a: seq<nat>, b: seq<nat>, x: nat)
    requires Increasing(a + [x]) && Increasing(b + [x]) && Alike(a + [x], b + [x])
    ensures Alike(a, b)
  {
    forall y | y in a
      ensures y in b
    {
      var i :| 0 <= i < |a| && a[i] == y;
      assert (a + [x])[i] < (a + [x])[|a|] && y in b + [x];
    }
    forall y | y in b
      ensures y in a
    {
      var i :| 0 <= i < |b| && b[i] == y;
      assert (b + [x])[i] < (b + [x])[|b|] && y in a + [x];
    }
  }

  lemma SameEnds(a: seq<nat>, b: seq<nat>)
    requires Increasing(a) && Increasing(b) && a != [] && Alike(a, b)
    ensures b != [] && a[|a| - 1] == b[|b| - 1]
    ensures Increasing(a[..|a| - 1]) && Increasing(b[..|b| - 1])
    ensures Alike(a[..|a| - 1], b[..|b| - 1])
  {
    assert a[|a| - 1] in b;
    assert b[|b| - 1] in a;
    LastIsTop(a, b[|b| - 1]);
    LastIsTop(b, a[|a| - 1]);
    assert a == a[..|a| - 1] + [a[|a| - 1]] && b == b[..|b| - 1] + [b[|b| - 1]];
    SameFronts(a[..|a| - 1], b[..|b| - 1], a[|a| - 1]);
  }

  /** An increasing sequence is determined by its elements. */
  lemma {:induction false} SameElements(a: seq<nat>, b: seq<nat>)
    requires Increasing(a) && Increasing(b) && Alike(a, b)
    ensures a == b
    decreases |a|
  {
    hide Increasing, Alike;
    if a == [] {
      if b != [] {
        AlikeNonempty(a, b);
      }
    } else {
      SameEnds(a, b);
      SameElements(a[..|a| - 1], b[..|b| - 1]);
      assert a == a[..|a| - 1] + [a[|a| - 1]] && b == b[..|b| - 1] + [b[|b| - 1]];
    }
  }

  // ---- What a headset has, and what it should have -----------------------------------------

  /** The numbers of the postings of one camera that were queued for a headset, as its tags record them. */
  function IndicesFrom(tags: seq<Tag>, s: A.Session): seq<nat> {
    if tags == [] then []
    else IndicesFrom(tags[..|tags| - 1], s) + if tags[|tags| - 1].cam == s then [tags[|tags| - 1].index] else []
  }

  /** The numbers of the postings made while the headset was listed at the camera. */
  ghost function ListedPostings(posted: seq<L.Posting>, addr: Addr, h: A.Session): (ks: seq<nat>)
    ensures forall k :: k in ks ==> k < |posted|
  {
    if posted == [] then []
    else
      var n := |posted| - 1;
      ListedPostings(posted[..n], addr, h) + if X.ListedAt(posted[n].at, addr, h) then [n] else []
  }

  /** The frames a headset has reassembled that came from one camera session, in order. */
  function ReceivedFrom(log: seq<R.Outcome>, tags: seq<Tag>, s: A.Session): seq<seq<Byte>>
    requires |log| == |tags|
  {
    if log == [] then []
    else
      var n := |log| - 1;
      ReceivedFrom(log[..n], tags[..n], s) + if tags[n].cam == s && log[n].Delivered? then [log[n].frame] else []
  }

  function Select(frames: seq<seq<Byte>>, ks: seq<nat>): seq<seq<Byte>>
    requires forall k :: k in ks ==> k < |frames|
  {
    seq(|ks|, i requires 0 <= i < |ks| => assert ks[i] in ks; frames[ks[i]])
  }

  lemma {:induction false} IndicesAre(tags: seq<Tag>, s: A.Session)
    requires forall i, j :: 0 <= i < j < |tags| && tags[i].cam == tags[j].cam ==> tags[i].index < tags[j].index
    ensures Increasing(IndicesFrom(tags, s))
    ensures forall k :: k in IndicesFrom(tags, s) <==> Tag(s, k) in tags
    decreases |tags|
  {
    if tags == [] {
    } else {
      var init, last := tags[..|tags| - 1], tags[|tags| - 1];
      IndicesAre(init, s);
      assert forall k :: Tag(s, k) in tags <==> Tag(s, k) in init || Tag(s, k) == last;
      forall k | k in IndicesFrom(init, s)
        ensures last.cam == s ==> k < last.index
      {
        assert Tag(s, k) in init;
      }
      if last.cam == s {
        IncreasingAppend(IndicesFrom(init, s), last.index);
      }
    }
  }

  lemma {:induction false} ListedPostingsAre(posted: seq<L.Posting>, addr: Addr, h: A.Session)
    ensures Increasing(ListedPostings(posted, addr, h))
    ensures forall k: nat :: k in ListedPostings(posted, addr, h) <==>
                             k < |posted| && X.ListedAt(posted[k].at, addr, h)
    decreases |posted|
  {
    hide X.ListedAt;
    if posted == [] {
    } else {
      var n := |posted| - 1;
      ListedPostingsAre(posted[..n], addr, h);
      IncreasingAppend(ListedPostings(posted[..n], addr, h), n);
    }
  }

  /** A log that dropped nothing holds the frames its tags point at. */
  lemma {:induction false} ReceivedAre(log: seq<R.Outcome>, tags: seq<Tag>, s: A.Session, frames: seq<seq<Byte>>)
    requires |log| == |tags|
    requires forall j :: 0 <= j < |tags| && tags[j].cam == s ==>
               tags[j].index < |frames| && log[j] == R.Delivered(frames[tags[j].index])
    ensures forall k :: k in IndicesFrom(tags, s) ==> k < |frames|
    ensures ReceivedFrom(log, tags, s) == Select(frames, IndicesFrom(tags, s))
    decreases |tags|
  {
    if tags == [] {
    } else {
      ReceivedAre(log[..|log| - 1], tags[..|tags| - 1], s, frames);
    }
  }

  // ---- The frames a camera was given -------------------------------------------------------

  /** The frames a schedule posts at one camera session, in order. */
  function PostedBy(es: seq<Event>, s: A.Session): seq<Frame> {
    if es == [] then []
    else (if es[0].OnCamera? && es[0].cam == s then C.Posted([es[0].e]) else []) + PostedBy(es[1..], s)
  }

  function AcceptedBy(w: World, s: A.Session): seq<Frame> {
    if s in w.cams then w.cams[s].conn.accepted else []
  }

  lemma NumberIsNew(w: World, addr: Addr)
    requires Inv(w)
    ensures A.Session(addr, w.mgr.last + 1) !in w.cams
  {
    hide A.Wf, CamOk, HeadOk;
  }

  lemma StepAccepts(w: World, e: Event, s: A.Session)
    requires Inv(w) && Enabled(w, e)
    ensures AcceptedBy(Step(w, e), s) == AcceptedBy(w, s) + PostedBy([e], s)
  {
    hide Inv, A.Apply, Followed, C.Step, C.Enabled, L.Finish, L.Copied;
    assert [e][1..] == [];
    if e.OnCamera? && e.cam == s {
      C.StepFrame(w.cams[s].conn, e.e);
    } else if e.Manage? && e.op.AddReader? {
      NumberIsNew(w, e.op.addr);
    }
  }

  lemma PostedByHead(es: seq<Event>, s: A.Session)
    requires es != []
    ensures PostedBy(es, s) == PostedBy([es[0]], s) + PostedBy(es[1..], s)
  {
    assert PostedBy([es[0]][1..], s) == [];
  }

  lemma {:induction false} RunAccepts(w: World, es: seq<Event>, s: A.Session)
    requires Inv(w) && Legal(w, es)
    ensures AcceptedBy(Run(w, es), s) == AcceptedBy(w, s) + PostedBy(es, s)
    decreases |es|
  {
    hide Inv, Step, Enabled, AcceptedBy, C.Posted;
    if es == [] {
      assert AcceptedBy(w, s) + [] == AcceptedBy(w, s);
    } else {
      StepKeeps(w, es[0]);
      StepAccepts(w, es[0], s);
      RunAccepts(Step(w, es[0]), es[1..], s);
      PostedByHead(es, s);
    }
  }

  // ---- Completeness ------------------------------------------------------------------------

  /** Everything sent has been taken in, and nothing was dropped for want of a buffer. */
  ghost predicate Quiet(c: C.Conn) {
    C.Drained(c) && R.Dropped !in c.r.log
  }

  /** No job for the headset is left at the camera. */
  ghost predicate NoneWaiting(r: L.Relay, h: A.Session) {
    forall i :: 0 <= i < |r.jobs| ==> r.jobs[i].target != h
  }

  ghost predicate NoneSkipped(r: L.Relay, h: A.Session) {
    forall i :: 0 <= i < |r.skipped| ==> r.skipped[i].target != h
  }

  ghost predicate Served(r: L.Relay, h: A.Session) {
    NoneWaiting(r, h) && NoneSkipped(r, h)
  }

  lemma QuietDelivers(c: C.Conn)
    requires C.Inv(c) && Quiet(c)
    ensures |c.r.log| == |c.accepted| && C.DeliveredFrames(c.r.log) == c.accepted
    ensures forall i :: 0 <= i < |c.accepted| ==> c.r.log[i] == R.Delivered(c.accepted[i])
  {
    hide C.Inv;
    C.InvMeans(c);
    C.AllDelivered(c.accepted, c.r.log);
    assert c.accepted[..|c.accepted|] == c.accepted;
  }

  lemma {:induction false} NoneFor(ts: seq<L.Job>, h: A.Session, k: nat)
    requires forall i :: 0 <= i < |ts| ==> ts[i].target != h
    ensures L.Occurs(ts, h, k) == 0
  {
    if ts == [] {
    } else {
      NoneFor(ts[1..], h, k);
    }
  }

  lemma {:induction false} OccursIfPresent(ts: seq<L.Job>, i: nat)
    requires i < |ts|
    ensures L.Occurs(ts, ts[i].target, ts[i].index) > 0
  {
    if i == 0 {
    } else {
      OccursIfPresent(ts[1..], i - 1);
    }
  }

  lemma CopyIsMade(r: L.Relay, h: A.Session, k: nat)
    requires L.Inv(r) && Served(r, h)
    ensures L.Occurs(r.made, h, k) == if k < |r.posted| && h in r.posted[k].targets then 1 else 0
  {
    hide L.Occurs;
    NoneFor(r.jobs, h, k);
    NoneFor(r.skipped, h, k);
    if k >= |r.posted| {
      L.NoneOf(r.made, h, k);
    }
  }

  /** A job still there, or skipped, is a listed posting without a copy. */
  lemma UnservedLacksCopy(r: L.Relay, h: A.Session) returns (k: nat)
    requires L.Inv(r) && !Served(r, h)
    ensures k < |r.posted| && h in r.posted[k].targets && L.Occurs(r.made, h, k) == 0
  {
    hide L.Occurs;
    if i :| 0 <= i < |r.jobs| && r.jobs[i].target == h {
      k := r.jobs[i].index;
      OccursIfPresent(r.jobs, i);
    } else {
      var j :| 0 <= j < |r.skipped| && r.skipped[j].target == h;
      k := r.skipped[j].index;
      OccursIfPresent(r.skipped, j);
    }
  }

  /** The tags of a headset name exactly the postings a camera made while the headset was listed there, if and
      only if the camera has served it. */
  lemma TagsAreListed(w: World, h: A.Session, s: A.Session)
    requires Inv(w) && h in w.heads && s in w.cams
    ensures IndicesFrom(w.heads[h].tags, s) == ListedPostings(w.cams[s].relay.posted, s.addr, h) <==>
            Served(w.cams[s].relay, h)
  {
    hide A.Wf, C.Inv, Glued, L.Inv, L.Occurs, X.ListedAt, JobsLater, WritersKnown, Served;
    hide IndicesFrom, ListedPostings, Increasing;
    var d, r := w.heads[h], w.cams[s].relay;
    assert HeadOk(h, d, w.cams, w.cap) && CamOk(w.cams[s], s.addr, w.cap);
    IndicesAre(d.tags, s);
    ListedPostingsAre(r.posted, s.addr, h);
    if Served(r, h) {
      forall k: nat
        ensures Tag(s, k) in d.tags <==> k < |r.posted| && X.ListedAt(r.posted[k].at, s.addr, h)
      {
        CopyIsMade(r, h, k);
        assert Tag(s, k) in d.tags <==> Tag(s, k) in multiset(d.tags);
      }
      SameElements(IndicesFrom(d.tags, s), ListedPostings(r.posted, s.addr, h));
    } else {
      var k := UnservedLacksCopy(r, h);
      assert Tag(s, k) !in multiset(d.tags) && X.ListedAt(r.posted[k].at, s.addr, h);
      assert k in ListedPostings(r.posted, s.addr, h) && k !in IndicesFrom(d.tags, s);
    }
  }

  // ---- When a job is skipped ---------------------------------------------------------------

  /** If the event runs a job of the camera's for the headset, the headset's session is live and has a copy
      buffer that no queued frame occupies. */
  ghost predicate FindsRoom(w: World, e: Event, s: A.Session, h: A.Session)
    requires Enabled(w, e)
  {
    e.RunJob? && e.cam == s && w.cams[s].relay.jobs[e.i].target == h ==>
      e.live && |w.heads[h].conn.w.queue| < w.heads[h].slots
  }

  /** ... each time in a run. */
  ghost predicate AlwaysRoom(w: World, es: seq<Event>, s: A.Session, h: A.Session)
    requires Legal(w, es)
    decreases |es|
  {
    es == [] || (FindsRoom(w, es[0], s, h) && AlwaysRoom(Step(w, es[0]), es[1..], s, h))
  }

  ghost predicate NoneSkippedBy(w: World, s: A.Session, h: A.Session) {
    s in w.cams ==> NoneSkipped(w.cams[s].relay, h)
  }

  lemma JobSkips(w: World, s: A.Session, i: nat, live: bool, c: A.Session, h: A.Session)
    requires Inv(w) && Enabled(w, RunJob(s, i, live))
    ensures NoneSkippedBy(Step(w, RunJob(s, i, live)), c, h) <==>
            NoneSkippedBy(w, c, h) && FindsRoom(w, RunJob(s, i, live), c, h)
  {
    hide Inv, C.Step, L.Copied, P.Release;
    assert Step(w, RunJob(s, i, live)) == JobDone(w, s, i, live);
    var r, copied := w.cams[s].relay, live && |w.heads[w.cams[s].relay.jobs[i].target].conn.w.queue| <
                                              w.heads[w.cams[s].relay.jobs[i].target].slots;
    var r' := JobDone(w, s, i, live).cams[s].relay;
    assert r'.skipped == if copied then r.skipped else r.skipped + [r.jobs[i]];
    if !copied && c == s && r.jobs[i].target == h {
      assert r'.skipped[|r.skipped|].target == h;
    }
    if NoneSkipped(r', h) {
      forall j | 0 <= j < |r.skipped|
        ensures r.skipped[j].target != h
      {
        assert r'.skipped[j] == r.skipped[j];
      }
    }
  }

  lemma FollowedSkipsNothing(w: World, addr: Addr, c: Cam, e: C.Event, targets: seq<A.Session>)
    requires CamEnabled(w, addr, c, e, targets)
    ensures Followed(w, addr, c, e, targets).skipped == c.relay.skipped
  {
    hide C.Step, C.Enabled, AreTargets, Landed, P.Release, P.Take;
  }

  lemma OthersSkipNothing(w: World, e: Event, s: A.Session, h: A.Session)
    requires Inv(w) && Enabled(w, e) && !e.RunJob?
    ensures NoneSkippedBy(Step(w, e), s, h) <==> NoneSkippedBy(w, s, h)
  {
    hide Inv, A.Apply, C.Step, C.Enabled, L.Copied, CamEnabled;
    match e
    case Manage(op, a) =>
      if op.AddReader? {
        NumberIsNew(w, op.addr);
      }
    case OnCamera(c, ev, targets) => FollowedSkipsNothing(w, c.addr, w.cams[c], ev, targets);
    case OnHeadset(_, _) =>
  }

  lemma NotAJob(w: World, e: Event, s: A.Session, h: A.Session)
    requires Enabled(w, e) && !e.RunJob?
    ensures FindsRoom(w, e, s, h)
  {
  }

  /** Over every run: a camera has skipped nothing for a headset if and only if each of its jobs for it found the
      session live and a copy buffer free. */
  lemma {:induction false} SkippedIff(w: World, es: seq<Event>, s: A.Session, h: A.Session)
    requires Inv(w) && Legal(w, es)
    ensures NoneSkippedBy(Run(w, es), s, h) <==> NoneSkippedBy(w, s, h) && AlwaysRoom(w, es, s, h)
    decreases |es|
  {
    hide Inv, Step, Enabled, NoneSkippedBy, FindsRoom;
    if es == [] {
    } else {
      StepKeeps(w, es[0]);
      if es[0].RunJob? {
        JobSkips(w, es[0].cam, es[0].i, es[0].live, s, h);
      } else {
        OthersSkipNothing(w, es[0], s, h);
        assert FindsRoom(w, es[0], s, h) by { NotAJob(w, es[0], s, h); }
      }
      SkippedIff(Step(w, es[0]), es[1..], s, h);
    }
  }

  // ---- What has arrived --------------------------------------------------------------------

  /** What a camera has posted on is what was delivered to it, in order. */
  lemma PostedFrames(w: World, s: A.Session)
    requires Inv(w) && s in w.cams
    ensures Frames(w.cams[s].relay.posted) == C.DeliveredFrames(w.cams[s].conn.r.log)
    ensures Quiet(w.cams[s].conn) ==> Frames(w.cams[s].relay.posted) == w.cams[s].conn.accepted
  {
    hide A.Wf, C.Inv, L.Inv, Glued, WritersKnown, Quiet;
    assert CamOk(w.cams[s], s.addr, w.cap);
    if Quiet(w.cams[s].conn) {
      QuietDelivers(w.cams[s].conn);
    }
  }

  /** A quiet headset holds exactly the frames its tags point at. */
  lemma QuietHolds(w: World, h: A.Session, s: A.Session)
    requires Inv(w) && h in w.heads && s in w.cams && Quiet(w.heads[h].conn)
    ensures var d, posted := w.heads[h], w.cams[s].relay.posted;
            && |d.conn.r.log| == |d.tags|
            && (forall j :: 0 <= j < |d.tags| ==> d.tags[j].cam in w.cams)
            && (forall k :: k in IndicesFrom(d.tags, s) ==> k < |posted|)
            && ReceivedFrom(d.conn.r.log, d.tags, s) == Select(Frames(posted), IndicesFrom(d.tags, s))
  {
    hide A.Wf, C.Inv, L.Inv, Glued, JobsLater, Tallied, WritersKnown, Quiet, AreTargets, PostingsOk;
    var d, posted := w.heads[h], w.cams[s].relay.posted;
    assert HeadOk(h, d, w.cams, w.cap);
    QuietDelivers(d.conn);
    forall j | 0 <= j < |d.tags| && d.tags[j].cam == s
      ensures d.tags[j].index < |posted| && d.conn.r.log[j] == R.Delivered(Frames(posted)[d.tags[j].index])
    {
      assert Frames(posted)[d.tags[j].index] == posted[d.tags[j].index].frame;
    }
    ReceivedAre(d.conn.r.log, d.tags, s, Frames(posted));
  }

  /** Over every run: the copies queued for a headset are exactly the postings a camera made while it was listed
      there, each once and in order, if and only if no job for it waits and each one found the session live and
      a copy buffer free. */
  lemma CopiesAreCompleteIff(cap: nat, es: seq<Event>, h: A.Session, s: A.Session)
    requires Legal(Start(cap), es)
    requires h in Run(Start(cap), es).heads && s in Run(Start(cap), es).cams
    ensures var w := Run(Start(cap), es);
            IndicesFrom(w.heads[h].tags, s) == ListedPostings(w.cams[s].relay.posted, s.addr, h) <==>
            NoneWaiting(w.cams[s].relay, h) && AlwaysRoom(Start(cap), es, s, h)
  {
    hide Inv, Legal, Step, NoneWaiting, NoneSkipped, IndicesFrom, ListedPostings, AlwaysRoom;
    StartInv(cap);
    RunKeeps(Start(cap), es);
    TagsAreListed(Run(Start(cap), es), h, s);
    SkippedIff(Start(cap), es, s, h);
  }

  /** Completeness, over every run: once a headset's link is quiet, no job of a camera waits for it, and each one
      found the session live and a copy buffer free, whatever became of all others, the headset has reassembled
      from that camera exactly the frames posted on while it was listed there, in order, and nothing else. They
      are the frames delivered to the camera's session, and if its link is quiet too, all the frames posted at
      the camera. */
  lemma DeliveryIsComplete(cap: nat, es: seq<Event>, h: A.Session, s: A.Session)
    requires Legal(Start(cap), es)
    requires h in Run(Start(cap), es).heads && s in Run(Start(cap), es).cams
    requires Quiet(Run(Start(cap), es).heads[h].conn)
    requires NoneWaiting(Run(Start(cap), es).cams[s].relay, h) && AlwaysRoom(Start(cap), es, s, h)
    ensures var w := Run(Start(cap), es);
            var d, c := w.heads[h], w.cams[s];
            && |d.conn.r.log| == |d.tags| && (forall j :: 0 <= j < |d.tags| ==> d.tags[j].cam in w.cams)
            && ReceivedFrom(d.conn.r.log, d.tags, s) ==
               Select(Frames(c.relay.posted), ListedPostings(c.relay.posted, s.addr, h))
            && Frames(c.relay.posted) == C.DeliveredFrames(c.conn.r.log)
            && (Quiet(c.conn) ==> Frames(c.relay.posted) == PostedBy(es, s))
  {
    hide Inv, Legal, Step, Quiet, NoneWaiting, AlwaysRoom, ReceivedFrom, IndicesFrom, ListedPostings;
    hide C.DeliveredFrames;
    StartInv(cap);
    RunKeeps(Start(cap), es);
    RunAccepts(Start(cap), es, s);
    assert [] + PostedBy(es, s) == PostedBy(es, s);
    var w := Run(Start(cap), es);
    CopiesAreCompleteIff(cap, es, h, s);
    QuietHolds(w, h, s);
    PostedFrames(w, s);
  }
}
