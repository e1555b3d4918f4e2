/** The server's fan-out of one camera session: frames are built in place in pool buffers, and every
    watching headset's copy is made later, by a job that still points at the buffer. The buffer memory is
    shared and overwritten on reuse, so what a job copies depends on when it runs. */
module Relay {
  import opened Common
  import opened Packet
  import opened Pools
  import opened Assignment

  datatype Memory = Memory(bytes: seq<Byte>, used: nat)

  function Content(m: Memory): seq<Byte> {
    if m.used <= |m.bytes| then m.bytes[..m.used] else m.bytes
  }

  /** A posted `Write`: it holds a reference to the buffer until it has run. */
  datatype Job = Job(target: Session, buf: Buffer, index: nat)

  /** A frame handed to `PostMessage`: its bytes at that moment, the writers it was fanned out to, the state
      of the assignment then, and the frame's number on the camera's link. */
  datatype Posting = Posting(frame: seq<Byte>, targets: seq<Session>, at: State, pos: nat)

  /** `cur` is the receive buffer, pooled or leaky. `made` records the jobs that queued their copy, `skipped`
      those that found no room for it or no live session. */
  datatype Relay = Relay(
    pool: Pool, heap: map<Buffer, Memory>, cur: Option<Buffer>, jobs: seq<Job>, posted: seq<Posting>,
    made: seq<Job>, skipped: seq<Job>)

  function Idle(count: nat, heap: map<Buffer, Memory>): Relay {
    Relay(Fresh(count, true), heap, None, [], [], [], [])
  }

  /** The receive buffer is taken for a new frame. */
  function Begin(r: Relay): Relay {
    r.(pool := Take(r.pool), cur := Taken(r.pool))
  }

  /** The socket writes into the receive buffer. */
  function Fill(r: Relay, bytes: seq<Byte>): Relay
    requires r.cur.Some? && r.cur.value in r.heap
  {
    r.(heap := r.heap[r.cur.value := r.heap[r.cur.value].(bytes := bytes)])
  }

  function Fan(targets: seq<Session>, buf: Buffer, index: nat): seq<Job> {
    seq(|targets|, i requires 0 <= i < |targets| => Job(targets[i], buf, index))
  }

  function ShareMany(p: Pool, b: Buffer, n: nat): Pool
    requires Held(p, b)
  {
    p.(refs := p.refs[b := p.refs[b] + n])
  }

  /** The frame is complete: its size is set, each writer gets a job with its own reference, and the
      session lets go of the buffer. */
  function Publish(r: Relay, used: nat, targets: seq<Session>, at: State, pos: nat): Relay
    requires r.cur.Some? && r.cur.value in r.heap && Held(r.pool, r.cur.value)
  {
    var b := r.cur.value;
    var memory := r.heap[b].(used := used);
    r.(pool := Release(ShareMany(r.pool, b, |targets|), b), heap := r.heap[b := memory], cur := None,
       jobs := r.jobs + Fan(targets, b, |r.posted|),
       posted := r.posted + [Posting(Content(memory), targets, at, pos)])
  }

  /** The frame is complete but sits in the leaky buffer: the session just lets go of it. */
  function Discard(r: Relay): Relay
    requires r.cur.Some?
  {
    r.(pool := Release(r.pool, r.cur.value), cur := None)
  }

  /** A headset's strand runs its jobs in order. */
  predicate IsNext(r: Relay, i: nat) {
    i < |r.jobs| && forall j :: 0 <= j < i ==> r.jobs[j].target != r.jobs[i].target
  }

  /** What the job copies: whatever the buffer holds now. */
  function Copied(r: Relay, i: nat): seq<Byte>
    requires i < |r.jobs| && r.jobs[i].buf in r.heap
  {
    Content(r.heap[r.jobs[i].buf])
  }

  /** The job is done, with or without a copy, and its reference gone. */
  function Finish(r: Relay, i: nat, copied: bool): Relay
    requires i < |r.jobs|
  {
    r.(pool := Release(r.pool, r.jobs[i].buf), jobs := RemoveAt(r.jobs, i),
       made := if copied then r.made + [r.jobs[i]] else r.made,
       skipped := if copied then r.skipped else r.skipped + [r.jobs[i]])
  }

  // ---- Counting references -----------------------------------------------------------------

  function Uses(ts: seq<Job>, b: Buffer): nat {
    if ts == [] then 0 else (if ts[0].buf == b then 1 else 0) + Uses(ts[1..], b)
  }

  lemma {:induction false} UsesAppend(x: seq<Job>, y: seq<Job>, b: Buffer)
    ensures Uses(x + y, b) == Uses(x, b) + Uses(y, b)
  {
    if x == [] {
      assert x + y == y;
    } else {
      assert (x + y)[1..] == x[1..] + y;
      UsesAppend(x[1..], y, b);
    }
  }

  lemma UsesWithout(ts: seq<Job>, i: nat, b: Buffer)
    requires i < |ts|
    ensures Uses(ts, b) == Uses(RemoveAt(ts, i), b) + if ts[i].buf == b then 1 else 0
  {
    assert ts == ts[..i] + ([ts[i]] + ts[i + 1..]);
    UsesAppend(ts[..i], [ts[i]] + ts[i + 1..], b);
    UsesAppend(ts[..i], ts[i + 1..], b);
    assert ([ts[i]] + ts[i + 1..])[1..] == ts[i + 1..];
  }

  lemma {:induction false} UsesFan(targets: seq<Session>, buf: Buffer, index: nat, b: Buffer)
    ensures Uses(Fan(targets, buf, index), b) == if b == buf then |targets| else 0
  {
    if targets == [] {
    } else {
      assert Fan(targets, buf, index)[1..] == Fan(targets[1..], buf, index);
      UsesFan(targets[1..], buf, index, b);
    }
  }

  lemma {:induction false} NotUsed(ts: seq<Job>, b: Buffer)
    requires forall i :: 0 <= i < |ts| ==> ts[i].buf != b
    ensures Uses(ts, b) == 0
  {
    if ts == [] {
    } else {
      NotUsed(ts[1..], b);
    }
  }

  lemma {:induction false} UsedIfPresent(ts: seq<Job>, i: nat)
    requires i < |ts|
    ensures Uses(ts, ts[i].buf) > 0
  {
    if i > 0 {
      UsedIfPresent(ts[1..], i - 1);
    }
  }

  /** How many jobs carry posting `k` to a headset. */
  function Occurs(ts: seq<Job>, target: Session, k: nat): nat {
    if ts == [] then 0
    else (if ts[0].target == target && ts[0].index == k then 1 else 0) + Occurs(ts[1..], target, k)
  }

  lemma {:induction false} OccursAppend(x: seq<Job>, y: seq<Job>, target: Session, k: nat)
    ensures Occurs(x + y, target, k) == Occurs(x, target, k) + Occurs(y, target, k)
  {
    if x == [] {
      assert x + y == y;
    } else {
      assert (x + y)[1..] == x[1..] + y;
      OccursAppend(x[1..], y, target, k);
    }
  }

  lemma OccursMoved(ts: seq<Job>, i: nat, done: seq<Job>, target: Session, k: nat)
    requires i < |ts|
    ensures Occurs(RemoveAt(ts, i), target, k) + Occurs(done + [ts[i]], target, k) ==
            Occurs(ts, target, k) + Occurs(done, target, k)
    ensures Occurs(done + [ts[i]], target, k) ==
            Occurs(done, target, k) + if ts[i].target == target && ts[i].index == k then 1 else 0
  {
    assert ts == (ts[..i] + [ts[i]]) + ts[i + 1..];
    OccursAppend(ts[..i] + [ts[i]], ts[i + 1..], target, k);
    OccursAppend(ts[..i], [ts[i]], target, k);
    OccursAppend(ts[..i], ts[i + 1..], target, k);
    OccursAppend(done, [ts[i]], target, k);
  }

  lemma {:induction false} OccursFan(targets: seq<Session>, buf: Buffer, index: nat, target: Session, k: nat)
    requires Distinct(targets)
    ensures Occurs(Fan(targets, buf, index), target, k) == if k == index && target in targets then 1 else 0
  {
    if targets == [] {
    } else {
      assert Fan(targets, buf, index)[1..] == Fan(targets[1..], buf, index);
      assert targets == [targets[0]] + targets[1..] && targets[0] !in targets[1..];
      OccursFan(targets[1..], buf, index, target, k);
    }
  }

  lemma {:induction false} NoneOf(ts: seq<Job>, target: Session, k: nat)
    requires forall i :: 0 <= i < |ts| ==> ts[i].index < k
    ensures Occurs(ts, target, k) == 0
  {
    if ts == [] {
    } else {
      NoneOf(ts[1..], target, k);
    }
  }

  // ---- The invariant -----------------------------------------------------------------------

  /** Reference counts are exact: one for the receive buffer, one for each job, and the pool's own one to the
      leaky buffer, which no job ever points at. */
  ghost predicate Counted(r: Relay) {
    && (forall b :: b in r.pool.refs ==>
          r.pool.refs[b] == Uses(r.jobs, b) + (if r.cur == Some(b) then 1 else 0) + Own(r.pool, b))
    && (forall i :: 0 <= i < |r.jobs| ==>
          r.jobs[i].buf in r.pool.refs && r.cur != Some(r.jobs[i].buf) && r.pool.leaky != Some(r.jobs[i].buf))
    && (r.cur.Some? ==> r.cur.value in r.pool.refs)
    && r.pool.leaky.Some?
  }

  /** Every job still finds the frame it was posted with, and belongs to a writer of that posting. */
  ghost predicate Intact(r: Relay) {
    forall i :: 0 <= i < |r.jobs| ==>
      var t := r.jobs[i];
      && t.index < |r.posted| && t.buf in r.heap
      && Content(r.heap[t.buf]) == r.posted[t.index].frame
      && t.target in r.posted[t.index].targets
  }

  /** Each headset's jobs are in posting order. */
  ghost predicate Ordered(r: Relay) {
    forall i, j :: 0 <= i < j < |r.jobs| && r.jobs[i].target == r.jobs[j].target ==>
      r.jobs[i].index < r.jobs[j].index
  }

  /** Each posting has exactly one job for each of its writers, still to run, done or skipped, and none for
      others. */
  ghost predicate Accounted(r: Relay) {
    && (forall i :: 0 <= i < |r.made| ==> r.made[i].index < |r.posted|)
    && (forall i :: 0 <= i < |r.skipped| ==> r.skipped[i].index < |r.posted|)
    && forall k, t :: 0 <= k < |r.posted| ==>
         Occurs(r.jobs, t, k) + Occurs(r.made, t, k) + Occurs(r.skipped, t, k) ==
         if t in r.posted[k].targets then 1 else 0
  }

  ghost predicate Inv(r: Relay) {
    Conserves(r.pool, r.heap.Keys) && Counted(r) && Intact(r) && Ordered(r) && Accounted(r)
  }

  /** What a checkout can hand out lies in memory, and the leaky buffer is not in the deque. */
  lemma LeakyIsNotFree(r: Relay)
    requires Inv(r)
    ensures r.pool.leaky.Some? && r.pool.leaky.value in r.heap
    ensures r.pool.free != [] ==> r.pool.free[0] in r.heap && r.pool.leaky != Some(r.pool.free[0])
  {
    assert r.pool.free != [] ==> r.pool.free[0] in r.pool.free;
  }

  lemma BeginKeeps(r: Relay)
    requires Inv(r) && r.cur.None?
    ensures Inv(Begin(r)) && Begin(r).pool.leaky == r.pool.leaky
    ensures Begin(r).cur == (if r.pool.free == [] then r.pool.leaky else Some(r.pool.free[0]))
    ensures Begin(r).cur.Some? && Begin(r).cur.value in r.heap
    ensures Begin(r).cur == r.pool.leaky <==> r.pool.free == []
  {
    hide Conserves, Occurs;
    TakeConserves(r.pool, r.heap.Keys);
    LeakyIsNotFree(r);
    if r.pool.free != [] {
      var f := r.pool.free[0];
      assert f !in r.pool.refs;
      assert Uses(r.jobs, f) == 0 by { NotUsed(r.jobs, f); }
    }
  }

  lemma FillKeeps(r: Relay, bytes: seq<Byte>)
    requires Inv(r) && r.cur.Some? && r.cur.value in r.heap
    ensures Inv(Fill(r, bytes))
  {
    hide Uses, Occurs;
    assert Fill(r, bytes).heap.Keys == r.heap.Keys;
  }

  lemma CurrentIsHeld(r: Relay)
    requires Inv(r) && r.cur.Some?
    ensures Held(r.pool, r.cur.value) && r.cur.value in r.heap
  {
  }

  /** Letting go of the leaky buffer puts nothing into the deque. */
  lemma DiscardKeeps(r: Relay)
    requires Inv(r) && r.cur.Some? && r.cur == r.pool.leaky
    ensures Inv(Discard(r)) && Discard(r).pool.free == r.pool.free && Discard(r).pool.leaky == r.pool.leaky
  {
    hide Uses, Occurs, Conserves, Content;
    ReleaseConserves(r.pool, r.heap.Keys, r.cur.value);
  }

  lemma PublishAccounted(r: Relay, used: nat, targets: seq<Session>, at: State, pos: nat)
    requires Inv(r) && r.cur.Some? && r.cur.value in r.heap && Held(r.pool, r.cur.value) && r.cur != r.pool.leaky
    requires Distinct(targets)
    ensures Accounted(Publish(r, used, targets, at, pos))
  {
    hide Uses, Occurs, Conserves, Release, Held, Content, Counted, Ordered;
    var p, n := Publish(r, used, targets, at, pos), |r.posted|;
    forall k, t | 0 <= k < |p.posted|
      ensures Occurs(p.jobs, t, k) + Occurs(p.made, t, k) + Occurs(p.skipped, t, k) ==
              if t in p.posted[k].targets then 1 else 0
    {
      OccursAppend(r.jobs, Fan(targets, r.cur.value, n), t, k);
      OccursFan(targets, r.cur.value, n, t, k);
      if k == n {
        NoneOf(r.jobs, t, k);
        NoneOf(r.made, t, k);
        NoneOf(r.skipped, t, k);
      }
    }
  }

  lemma ShareManyConserves(p: Pool, all: set<Buffer>, b: Buffer, n: nat)
    requires Conserves(p, all) && Held(p, b)
    ensures Conserves(ShareMany(p, b, n), all) && Held(ShareMany(p, b, n), b)
  {
  }

  lemma PublishIntact(r: Relay, used: nat, targets: seq<Session>, at: State, pos: nat)
    requires Inv(r) && r.cur.Some? && r.cur.value in r.heap && Held(r.pool, r.cur.value) && r.cur != r.pool.leaky
    requires Distinct(targets)
    ensures Intact(Publish(r, used, targets, at, pos)) && Ordered(Publish(r, used, targets, at, pos))
  {
    hide Uses, Occurs, Conserves, Release, Held, Content;
  }

  lemma PublishCounts(r: Relay, used: nat, targets: seq<Session>, at: State, pos: nat)
    requires Inv(r) && r.cur.Some? && r.cur.value in r.heap && Held(r.pool, r.cur.value) && r.cur != r.pool.leaky
    ensures Counted(Publish(r, used, targets, at, pos))
  {
    hide Uses, Occurs, Conserves, Content;
    var p, cur := Publish(r, used, targets, at, pos), r.cur.value;
    var fan := Fan(targets, cur, |r.posted|);
    forall b
      ensures Uses(p.jobs, b) == Uses(r.jobs, b) + if b == cur then |targets| else 0
    {
      UsesAppend(r.jobs, fan, b);
      UsesFan(targets, cur, |r.posted|, b);
    }
    NotUsed(r.jobs, cur);
  }

  lemma PublishKeeps(r: Relay, used: nat, targets: seq<Session>, at: State, pos: nat)
    requires Inv(r) && r.cur.Some? && r.cur.value in r.heap && Held(r.pool, r.cur.value) && r.cur != r.pool.leaky
    requires Distinct(targets)
    ensures Inv(Publish(r, used, targets, at, pos))
    ensures Publish(r, used, targets, at, pos).pool.leaky == r.pool.leaky
  {
    hide Uses, Occurs, Conserves, Release, Held;
    PublishCounts(r, used, targets, at, pos);
    var p, b := Publish(r, used, targets, at, pos), r.cur.value;
    assert p.heap.Keys == r.heap.Keys;
    ShareManyConserves(r.pool, r.heap.Keys, b, |targets|);
    ReleaseConserves(ShareMany(r.pool, b, |targets|), r.heap.Keys, b);
    PublishIntact(r, used, targets, at, pos);
    PublishAccounted(r, used, targets, at, pos);
  }

  lemma FinishAccounted(r: Relay, i: nat, copied: bool)
    requires Inv(r) && IsNext(r, i) && Held(r.pool, r.jobs[i].buf)
    ensures Accounted(Finish(r, i, copied))
  {
    hide Uses, Occurs, Conserves, Release, Held, Content, Counted, Ordered;
    var f := Finish(r, i, copied);
    forall k, t | 0 <= k < |f.posted|
      ensures Occurs(f.jobs, t, k) + Occurs(f.made, t, k) + Occurs(f.skipped, t, k) ==
              if t in f.posted[k].targets then 1 else 0
    {
      OccursMoved(r.jobs, i, r.made, t, k);
      OccursMoved(r.jobs, i, r.skipped, t, k);
    }
  }

  lemma FinishCounts(r: Relay, i: nat, copied: bool)
    requires Inv(r) && IsNext(r, i) && Held(r.pool, r.jobs[i].buf)
    ensures Counted(Finish(r, i, copied)) && Intact(Finish(r, i, copied)) && Ordered(Finish(r, i, copied))
  {
    hide Uses, Occurs, Conserves, Content;
    var f := Finish(r, i, copied);
    forall b
      ensures Uses(r.jobs, b) == Uses(f.jobs, b) + if r.jobs[i].buf == b then 1 else 0
    {
      UsesWithout(r.jobs, i, b);
    }
    forall j | 0 <= j < |f.jobs|
      ensures Uses(f.jobs, f.jobs[j].buf) > 0
    {
      UsedIfPresent(f.jobs, j);
    }
  }

  /** The next job of a headset copies exactly the frame it was posted with, and the invariant survives
      its release of the buffer. */
  lemma FinishKeeps(r: Relay, i: nat, copied: bool)
    requires Inv(r) && IsNext(r, i)
    ensures Held(r.pool, r.jobs[i].buf) && r.jobs[i].buf in r.heap
    ensures r.jobs[i].index < |r.posted| && Copied(r, i) == r.posted[r.jobs[i].index].frame
    ensures r.jobs[i].target in r.posted[r.jobs[i].index].targets
    ensures Inv(Finish(r, i, copied))
  {
    hide Uses, Occurs, Conserves, Content;
    var b := r.jobs[i].buf;
    UsedIfPresent(r.jobs, i);
    assert Held(r.pool, b);
    ReleaseConserves(r.pool, r.heap.Keys, b);
    FinishCounts(r, i, copied);
    FinishAccounted(r, i, copied);
  }

  /** Running a job leaves the receive buffer, and everybody's memory, alone. */
  lemma CurrentStays(r: Relay, i: nat)
    requires i < |r.jobs|
    ensures forall copied :: var f := Finish(r, i, copied);
              f.cur == r.cur && f.heap == r.heap && f.posted == r.posted && f.pool.leaky == r.pool.leaky
  {
  }
}
