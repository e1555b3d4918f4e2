/** Left alone, the whole system comes to rest: no endless exchange of transfers and copies, and no deadlock. */
module Settling {
  import opened Packet
  import opened Wire
  import opened AddressOrder
  import opened EndToEnd
  import opened Common
  import A = Assignment
  import W = WriteChain
  import R = ReadChain
  import C = Connection
  import X = ConnectionIndex
  import L = Relay
  import P = Pools

  // ---- Sums over sessions ------------------------------------------------------------------

  ghost function Sum(m: map<A.Session, nat>): nat {
    if m == map[] then 0 else var k :| k in m; m[k] + Sum(m - {k})
  }

  lemma {:induction false} SumWithout(m: map<A.Session, nat>, k: A.Session)
    requires k in m
    ensures Sum(m) == m[k] + Sum(m - {k})
    decreases |m|
  {
    var j :| j in m && Sum(m) == m[j] + Sum(m - {j});
    if j == k {
    } else {
      SumWithout(m - {j}, k);
      SumWithout(m - {k}, j);
      assert m - {j} - {k} == m - {k} - {j};
    }
  }

  /** Changing one term changes the sum by the difference. */
  lemma SumChange(m: map<A.Session, nat>, n: map<A.Session, nat>, k: A.Session)
    requires k in m && m.Keys == n.Keys && forall j :: j in m && j != k ==> n[j] == m[j]
    ensures Sum(n) + m[k] == Sum(m) + n[k]
  {
    SumWithout(m, k);
    SumWithout(n, k);
    assert n - {k} == m - {k};
  }

  // ---- What a copy costs -------------------------------------------------------------------

  /** An upper bound on the bytes of a frame that fits a buffer, on the wire. */
  function FrameCost(cap: nat): nat {
    cap + HEADER_SIZE * (cap / MAX_SIZE + 1)
  }

  /** What one more queued frame can add to the work of a link, and with it what a job is worth. */
  function JobCost(cap: nat): nat {
    2 * FrameCost(cap) + 3
  }

  lemma FrameCostBounds(f: Frame, number: Word16, cap: nat)
    requires |f| <= cap
    ensures |EncodeFrame(f, number)| <= FrameCost(cap)
  {
    hide EncodeFrame;
    PacketCountIsExact(f, number);
    assert |f| / MAX_SIZE <= cap / MAX_SIZE;
  }

  lemma PostQueues(w: W.Writer, f: Frame)
    ensures |W.Post(w, f).queue| == |w.queue| + 1
  {
  }

  lemma PostAddsWork(c: C.Conn, f: Frame)
    requires C.Inv(c) && |f| <= c.cap
    ensures C.Inv(C.Step(c, C.Post(f)))
    ensures C.Work(C.Step(c, C.Post(f))) < C.Work(c) + JobCost(c.cap)
  {
    hide EncodeAll, EncodeFrame, Advance, W.SingleChain, W.Remaining, W.NextNumber, R.InStep, R.Expected;
    hide W.Post, FrameCost;
    C.PostKeeps(c, f);
    W.PostKeeps(c.w, f);
    R.MoreFrames(c.r, c.accepted, f, c.recall, c.cap);
    FrameCostBounds(f, W.NextNumber(c.w), c.cap);
    FrameCostBounds(f, Advance(c.recall, |c.accepted| + 1), c.cap);
    PostQueues(c.w, f);
  }

  // ---- How many writers a frame can go to --------------------------------------------------

  lemma {:induction false} TargetsBounded(m: A.State, targets: seq<A.Session>, keys: set<Addr>)
    requires Distinct(targets)
    requires forall t :: t in targets ==> t.addr in keys && t.addr in m.writers && m.writers[t.addr] == t
    ensures |targets| <= |keys|
    decreases |targets|
  {
    if targets == [] {
    } else {
      var t, rest := targets[0], targets[1..];
      assert targets == [t] + rest && t !in rest;
      TargetsBounded(m, rest, keys - {t.addr});
    }
  }

  lemma FanIsBounded(m: A.State, addr: Addr, targets: seq<A.Session>)
    requires AreTargets(m, addr, targets)
    ensures |targets| <= |m.writers|
  {
    forall t | t in targets
      ensures t.addr in m.writers && m.writers[t.addr] == t
    {
      assert X.ListedAt(m, addr, t);
    }
    TargetsBounded(m, targets, m.writers.Keys);
    assert |m.writers.Keys| == |m.writers|;
  }

  // ---- The potential -----------------------------------------------------------------------

  /** What one transfer on a camera's link is worth: it can end a frame that goes to every writer. */
  function TransferCost(m: A.State, cap: nat): nat {
    1 + |m.writers| * JobCost(cap)
  }

  function Worth(work: nat, jobs: nat, m: A.State, cap: nat): nat {
    work * TransferCost(m, cap) + jobs * JobCost(cap)
  }

  ghost function CamPotential(c: Cam, m: A.State, cap: nat): nat
    requires C.Inv(c.conn)
  {
    Worth(C.Work(c.conn), |c.relay.jobs|, m, cap)
  }

  lemma CamInv(w: World, s: A.Session)
    requires Inv(w) && s in w.cams
    ensures C.Inv(w.cams[s].conn) && CamOk(w.cams[s], s.addr, w.cap) && w.cams[s].conn.cap == w.cap
  {
  }

  ghost function CamPotentials(w: World): map<A.Session, nat>
    requires Inv(w)
  {
    map s | s in w.cams :: CamInv(w, s); CamPotential(w.cams[s], w.mgr, w.cap)
  }

  lemma HeadInv(w: World, h: A.Session)
    requires Inv(w) && h in w.heads
    ensures C.Inv(w.heads[h].conn) && HeadOk(h, w.heads[h], w.cams, w.cap) && w.heads[h].conn.cap == w.cap
  {
  }

  ghost function HeadPotentials(w: World): map<A.Session, nat>
    requires Inv(w)
  {
    map h | h in w.heads :: HeadInv(w, h); C.Work(w.heads[h].conn)
  }

  ghost function Potential(w: World): nat
    requires Inv(w)
  {
    Sum(CamPotentials(w)) + Sum(HeadPotentials(w))
  }

  /** A step of the system by itself: no call on the manager, no new frame at a camera. */
  predicate Internal(e: Event) {
    !e.Manage? && (e.OnCamera? ==> !e.e.Post?)
  }

  lemma Scale(x: nat, y: nat, cost: nat)
    requires x < y
    ensures x * cost + cost <= y * cost
  {
    assert (x + 1) * cost <= y * cost;
  }

  /** A transfer adds at most one job for each writer of the manager's. */
  lemma JobsGrow(w: World, addr: Addr, c: Cam, e: C.Event, targets: seq<A.Session>)
    requires CamEnabled(w, addr, c, e, targets)
    ensures |Followed(w, addr, c, e, targets).jobs| <= |c.relay.jobs| + |targets|
  {
    hide C.Step, C.Enabled, AreTargets, Landed, P.Release, P.Take;
  }

  lemma Few(jobs: nat, before: nat, fan: nat, cost: nat)
    requires jobs <= before + fan
    ensures jobs * cost <= before * cost + fan * cost
  {
    assert jobs * cost <= (before + fan) * cost;
  }

  lemma TransferPays(w: World, s: A.Session, e: C.Event, targets: seq<A.Session>)
    requires Inv(w) && s in w.cams && CamEnabled(w, s.addr, w.cams[s], e, targets) && !e.Post?
    ensures C.Inv(w.cams[s].conn) && C.Inv(C.Step(w.cams[s].conn, e))
    ensures CamPotential(Cam(C.Step(w.cams[s].conn, e), Followed(w, s.addr, w.cams[s], e, targets)), w.mgr, w.cap) <
            CamPotential(w.cams[s], w.mgr, w.cap)
  {
    hide Inv, C.Inv, C.Step, C.Enabled, C.Work, Followed, AreTargets, JobCost;
    CamInv(w, s);
    var c, job := w.cams[s], JobCost(w.cap);
    C.TransfersShrinkWork(c.conn, e);
    JobsGrow(w, s.addr, c, e, targets);
    FanIsBounded(w.mgr, s.addr, targets);
    var fan, jobs := |w.mgr.writers|, |Followed(w, s.addr, c, e, targets).jobs|;
    Scale(C.Work(C.Step(c.conn, e)), C.Work(c.conn), TransferCost(w.mgr, w.cap));
    Few(jobs, |c.relay.jobs|, fan, job);
  }

  lemma CamTerms(w: World)
    requires Inv(w)
    ensures CamPotentials(w).Keys == w.cams.Keys
    ensures forall s :: s in w.cams ==>
              C.Inv(w.cams[s].conn) && CamPotentials(w)[s] == CamPotential(w.cams[s], w.mgr, w.cap)
  {
    hide Inv, C.Inv, CamPotential, CamOk;
    forall s | s in w.cams
      ensures C.Inv(w.cams[s].conn)
    {
      CamInv(w, s);
    }
  }

  /** Only one camera's term of the sum changes. */
  lemma CamChange(w: World, w': World, s: A.Session)
    requires Inv(w) && Inv(w') && s in w.cams && s in w'.cams && w'.cams == w.cams[s := w'.cams[s]]
    requires w'.mgr == w.mgr && w'.cap == w.cap
    ensures C.Inv(w.cams[s].conn) && C.Inv(w'.cams[s].conn)
    ensures Sum(CamPotentials(w')) + CamPotential(w.cams[s], w.mgr, w.cap) ==
            Sum(CamPotentials(w)) + CamPotential(w'.cams[s], w.mgr, w.cap)
  {
    hide Inv, C.Inv, CamPotential, CamPotentials;
    CamInv(w, s);
    CamInv(w', s);
    CamTerms(w);
    CamTerms(w');
    SumChange(CamPotentials(w), CamPotentials(w'), s);
  }

  lemma HeadChange(w: World, w': World, h: A.Session)
    requires Inv(w) && Inv(w') && h in w.heads && h in w'.heads && w'.heads == w.heads[h := w'.heads[h]]
    ensures C.Inv(w.heads[h].conn) && C.Inv(w'.heads[h].conn)
    ensures Sum(HeadPotentials(w')) + C.Work(w.heads[h].conn) == Sum(HeadPotentials(w)) + C.Work(w'.heads[h].conn)
  {
    hide Inv, C.Inv, C.Work;
    HeadInv(w, h);
    HeadInv(w', h);
    SumChange(HeadPotentials(w), HeadPotentials(w'), h);
  }

  lemma SameHeads(w: World, w': World)
    requires Inv(w) && Inv(w') && w'.heads == w.heads
    ensures HeadPotentials(w') == HeadPotentials(w)
  {
    hide Inv, C.Inv, C.Work;
  }

  lemma OnCameraPays(w: World, s: A.Session, e: C.Event, targets: seq<A.Session>)
    requires Inv(w) && Enabled(w, OnCamera(s, e, targets)) && !e.Post?
    ensures Inv(Step(w, OnCamera(s, e, targets)))
    ensures Potential(Step(w, OnCamera(s, e, targets))) < Potential(w)
  {
    hide Inv, C.Inv, C.Step, C.Enabled, C.Work, CamPotential, Followed, CamEnabled, CamPotentials, HeadPotentials;
    StepKeeps(w, OnCamera(s, e, targets));
    TransferPays(w, s, e, targets);
    var w' := Step(w, OnCamera(s, e, targets));
    CamChange(w, w', s);
    SameHeads(w, w');
  }

  lemma OnHeadsetPays(w: World, h: A.Session, e: C.Event)
    requires Inv(w) && Enabled(w, OnHeadset(h, e))
    ensures Inv(Step(w, OnHeadset(h, e)))
    ensures Potential(Step(w, OnHeadset(h, e))) < Potential(w)
  {
    hide Inv, C.Inv, C.Step, C.Enabled, C.Work, CamPotential, HeadPotentials;
    StepKeeps(w, OnHeadset(h, e));
    HeadInv(w, h);
    C.TransfersShrinkWork(w.heads[h].conn, e);
    var w' := Step(w, OnHeadset(h, e));
    HeadChange(w, w', h);
    assert CamPotentials(w') == CamPotentials(w);
  }

  lemma JobPays(c: Cam, d: Cam, m: A.State, cap: nat)
    requires C.Inv(c.conn) && d.conn == c.conn && |d.relay.jobs| == |c.relay.jobs| - 1
    ensures CamPotential(d, m, cap) + JobCost(cap) == CamPotential(c, m, cap)
  {
    hide C.Inv, C.Work, JobCost, TransferCost;
    var n, cost := |d.relay.jobs|, JobCost(cap);
    assert (n + 1) * cost == n * cost + cost;
  }

  lemma CopyAdds(w: World, s: A.Session, i: nat, live: bool)
    requires Inv(w) && Enabled(w, RunJob(s, i, live)) && Inv(JobDone(w, s, i, live))
    ensures Sum(HeadPotentials(JobDone(w, s, i, live))) < Sum(HeadPotentials(w)) + JobCost(w.cap)
  {
    hide Inv, C.Inv, C.Step, C.Work, HeadPotentials, FrameCost, L.Copied, L.Finish;
    var t := w.cams[s].relay.jobs[i].target;
    var w' := JobDone(w, s, i, live);
    if live && HasRoom(w.heads[t]) {
      HeadInv(w, t);
      PostAddsWork(w.heads[t].conn, L.Copied(w.cams[s].relay, i));
      HeadChange(w, w', t);
    } else {
      SameHeads(w, w');
    }
  }

  /** A job is worth more than the work its copy can add. */
  lemma RunJobPays(w: World, s: A.Session, i: nat, live: bool)
    requires Inv(w) && Enabled(w, RunJob(s, i, live))
    ensures Inv(Step(w, RunJob(s, i, live)))
    ensures Potential(Step(w, RunJob(s, i, live))) < Potential(w)
  {
    hide Inv, C.Inv, C.Step, C.Work, CamPotential, CamPotentials, HeadPotentials, JobCost, L.Copied, P.Release, HasRoom;
    StepKeeps(w, RunJob(s, i, live));
    var w' := Step(w, RunJob(s, i, live));
    CopyAdds(w, s, i, live);
    CamChange(w, w', s);
    JobPays(w.cams[s], w'.cams[s], w.mgr, w.cap);
  }

  lemma StepPays(w: World, e: Event)
    requires Inv(w) && Enabled(w, e) && Internal(e)
    ensures Inv(Step(w, e)) && Potential(Step(w, e)) < Potential(w)
  {
    hide Inv, Potential, Step;
    match e
    case OnCamera(s, ev, targets) => OnCameraPays(w, s, ev, targets);
    case OnHeadset(h, ev) => OnHeadsetPays(w, h, ev);
    case RunJob(s, i, live) => RunJobPays(w, s, i, live);
  }

  // ---- Whole runs --------------------------------------------------------------------------

  lemma {:induction false} RunIsBounded(w: World, es: seq<Event>)
    requires Inv(w) && Legal(w, es) && forall e :: e in es ==> Internal(e)
    ensures Inv(Run(w, es)) && |es| + Potential(Run(w, es)) <= Potential(w)
    decreases |es|
  {
    hide Inv, Potential, Step, Enabled, Internal;
    if es == [] {
    } else {
      assert es[0] in es;
      StepPays(w, es[0]);
      RunIsBounded(Step(w, es[0]), es[1..]);
    }
  }

  /** Nothing is left to send, to take in, or to copy. */
  predicate AtRest(w: World) {
    && (forall s :: s in w.cams ==> C.Drained(w.cams[s].conn) && w.cams[s].relay.jobs == [])
    && (forall h :: h in w.heads ==> C.Drained(w.heads[h].conn))
  }

  /** A system that is not at rest can move by itself. */
  lemma CanMove(w: World) returns (e: Event)
    requires Inv(w) && !AtRest(w)
    ensures Internal(e) && Enabled(w, e)
  {
    hide Inv, C.Enabled, C.Drained, CamEnabled, JobEnabled, C.Inv;
    if h :| h in w.heads && !C.Drained(w.heads[h].conn) {
      HeadInv(w, h);
      var ev := C.NeverStuck(w.heads[h].conn, R.Leaky(seq(w.cap, _ => 0)));
      e := OnHeadset(h, ev);
    } else {
      var s :| s in w.cams && (!C.Drained(w.cams[s].conn) || w.cams[s].relay.jobs != []);
      if w.cams[s].relay.jobs != [] {
        NothingIsExcluded(w, s, C.Post([]), 0);
        e := RunJob(s, 0, true);
      } else {
        CamInv(w, s);
        var offer := OneOffer(w, s);
        var ev := C.NeverStuck(w.cams[s].conn, offer);
        NothingIsExcluded(w, s, ev, 0);
        var targets :| Enabled(w, OnCamera(s, ev, targets));
        e := OnCamera(s, ev, targets);
      }
    }
  }

  /** Settling, from every reachable state: without manager calls and new frames no run is longer than the
      potential the state has, and a run that nothing can follow ends at rest. */
  lemma SettlesInTime(cap: nat, before: seq<Event>, es: seq<Event>)
    requires Legal(Start(cap), before) && Legal(Run(Start(cap), before), es)
    requires forall e :: e in es ==> Internal(e)
    ensures Inv(Run(Start(cap), before)) && |es| <= Potential(Run(Start(cap), before))
    ensures var w := Run(Run(Start(cap), before), es);
            AtRest(w) || exists e :: Internal(e) && Enabled(w, e)
  {
    hide Inv, Potential, AtRest, Internal, Enabled;
    StartInv(cap);
    RunKeeps(Start(cap), before);
    RunIsBounded(Run(Start(cap), before), es);
    var w := Run(Run(Start(cap), before), es);
    if !AtRest(w) {
      var e := CanMove(w);
    }
  }
}
