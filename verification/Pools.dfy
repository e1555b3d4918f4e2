/** The TCP buffer pools: a deque of free buffers, and shared references whose last release puts the
    buffer back. The read pool also keeps one leaky buffer, which it lends to everybody once the deque is
    empty and which no release may put into the deque. */
module Pools {
  import opened Common

  type Buffer = nat

  /** `refs` counts the references to each buffer that has any; the pool's own reference to its leaky buffer
      is one of them. A write pool has no leaky buffer. */
  datatype Pool = Pool(free: seq<Buffer>, refs: map<Buffer, nat>, leaky: Option<Buffer>)

  /** A read or a write pool just made. The buffers are numbered in the order they are made, the leaky one
      last. */
  function Fresh(count: nat, leaky: bool): Pool {
    if leaky then Pool(seq(count, i => i), map[count := 1], Some(count)) else Pool(seq(count, i => i), map[], None)
  }

  ghost function Made(count: nat, leaky: bool): set<Buffer> {
    (set b | b in Fresh(count, leaky).free) + Fresh(count, leaky).refs.Keys
  }

  predicate Held(p: Pool, b: Buffer) {
    b in p.refs && p.refs[b] > 0
  }

  /** One more reference to a buffer that has some. */
  function Share(p: Pool, b: Buffer): Pool {
    if Held(p, b) then p.(refs := p.refs[b := p.refs[b] + 1]) else p
  }

  /** What a checkout hands out: the front buffer, or the leaky one, or nothing. */
  function Taken(p: Pool): Option<Buffer> {
    if p.free == [] then p.leaky else Some(p.free[0])
  }

  /** A checkout wraps the front buffer in a first reference, or shares the leaky buffer. */
  function Take(p: Pool): Pool {
    if p.free != [] then p.(free := p.free[1..], refs := p.refs[p.free[0] := 1])
    else if p.leaky.Some? then Share(p, p.leaky.value)
    else p
  }

  /** A reference goes. The last one to a buffer of the deque pushes it to the back; the last one to the
      leaky buffer would delete it. */
  function Release(p: Pool, b: Buffer): Pool {
    if !Held(p, b) then p
    else if p.refs[b] > 1 then p.(refs := p.refs[b := p.refs[b] - 1])
    else if p.leaky == Some(b) then p.(refs := p.refs - {b})
    else p.(free := p.free + [b], refs := p.refs - {b})
  }

  /** The pool's own references. */
  function Own(p: Pool, b: Buffer): nat {
    if p.leaky == Some(b) then 1 else 0
  }

  /** Free and referenced buffers partition the buffers there are, and the leaky one is referenced. */
  ghost predicate Conserves(p: Pool, all: set<Buffer>) {
    && Distinct(p.free)
    && (forall b :: b in p.free ==> b !in p.refs)
    && (forall b :: b in all <==> b in p.free || b in p.refs)
    && (forall b :: b in p.refs ==> p.refs[b] > 0)
    && (p.leaky.Some? ==> p.leaky.value in p.refs)
  }

  lemma FreshConserves(count: nat, leaky: bool)
    ensures Conserves(Fresh(count, leaky), Made(count, leaky))
  {
  }

  lemma TakeConserves(p: Pool, all: set<Buffer>)
    requires Conserves(p, all)
    ensures Conserves(Take(p), all) && Take(p).leaky == p.leaky
    ensures Taken(p).Some? ==> Taken(p).value in all && Held(Take(p), Taken(p).value)
    ensures Taken(p).Some? && Taken(p) != p.leaky ==> Taken(p).value !in p.refs
  {
    if p.free != [] {
      assert p.free == [p.free[0]] + p.free[1..];
      assert p.free[0] !in p.free[1..];
    }
  }

  /** A release that leaves the pool its own reference conserves. */
  lemma ReleaseConserves(p: Pool, all: set<Buffer>, b: Buffer)
    requires Conserves(p, all) && b in p.refs && p.refs[b] > Own(p, b)
    ensures Conserves(Release(p, b), all) && Release(p, b).leaky == p.leaky
  {
    var r := Release(p, b);
    if p.refs[b] == 1 {
      assert r.refs.Keys == p.refs.Keys - {b};
    }
  }

  // ---- Runs --------------------------------------------------------------------------------

  /** A pool and the references its users hold, one entry each. */
  datatype Shared = Shared(pool: Pool, held: multiset<Buffer>)

  datatype Event = Checkout | Copy(b: Buffer) | Drop(b: Buffer)

  /** Users copy and drop only what they hold. */
  predicate Enabled(s: Shared, e: Event) {
    e.Checkout? || e.b in s.held
  }

  function Step(s: Shared, e: Event): Shared {
    match e
    case Checkout =>
      Shared(Take(s.pool), if Taken(s.pool).Some? then s.held + multiset{Taken(s.pool).value} else s.held)
    case Copy(b) => Shared(Share(s.pool, b), s.held + multiset{b})
    case Drop(b) => Shared(Release(s.pool, b), s.held - multiset{b})
  }

  predicate Legal(s: Shared, es: seq<Event>)
    decreases |es|
  {
    es == [] || (Enabled(s, es[0]) && Legal(Step(s, es[0]), es[1..]))
  }

  function Run(s: Shared, es: seq<Event>): Shared
    decreases |es|
  {
    if es == [] then s else Run(Step(s, es[0]), es[1..])
  }

  /** The counts the runtime keeps are the references there really are. */
  ghost predicate Exact(s: Shared) {
    forall b: Buffer :: (if b in s.pool.refs then s.pool.refs[b] else 0) == s.held[b] + Own(s.pool, b)
  }

  ghost predicate Inv(s: Shared, all: set<Buffer>) {
    Conserves(s.pool, all) && Exact(s)
  }

  lemma CheckoutKeeps(s: Shared, all: set<Buffer>)
    requires Inv(s, all)
    ensures Inv(Step(s, Checkout), all) && Step(s, Checkout).pool.leaky == s.pool.leaky
  {
    TakeConserves(s.pool, all);
  }

  lemma DropKeeps(s: Shared, all: set<Buffer>, b: Buffer)
    requires Inv(s, all) && b in s.held
    ensures Inv(Step(s, Drop(b)), all) && Step(s, Drop(b)).pool.leaky == s.pool.leaky
  {
    assert s.held[b] > 0;
    ReleaseConserves(s.pool, all, b);
  }

  lemma StepKeeps(s: Shared, all: set<Buffer>, e: Event)
    requires Inv(s, all) && Enabled(s, e)
    ensures Inv(Step(s, e), all) && Step(s, e).pool.leaky == s.pool.leaky
  {
    match e
    case Checkout => CheckoutKeeps(s, all);
    case Copy(b) => assert s.held[b] > 0;
    case Drop(b) => DropKeeps(s, all, b);
  }

  lemma {:induction false} RunKeeps(s: Shared, all: set<Buffer>, es: seq<Event>)
    requires Inv(s, all) && Legal(s, es)
    ensures Inv(Run(s, es), all) && Run(s, es).pool.leaky == s.pool.leaky
    decreases |es|
  {
    hide Inv, Step, Enabled;
    if es == [] {
    } else {
      StepKeeps(s, all, es[0]);
      RunKeeps(Step(s, es[0]), all, es[1..]);
    }
  }

  /** Where a buffer is after any run, for a pool that made `count` buffers and perhaps a leaky one: */
  ghost predicate Partitioned(s: Shared, count: nat, b: Buffer) {
    // free and held buffers partition those made for the deque,
    && Distinct(s.pool.free)
    && (b < count <==> b in s.pool.free || (b in s.held && s.pool.leaky != Some(b)))
    && !(b in s.pool.free && b in s.held)
    // the leaky buffer never enters the deque and never loses the pool's own reference,
    && (s.pool.leaky == Some(b) ==> b !in s.pool.free && b in s.pool.refs)
    // the counts are the references held,
    && (b in s.held ==> b in s.pool.refs && s.pool.refs[b] == s.held[b] + Own(s.pool, b))
    // and a checkout hands out a buffer nobody holds, or the leaky one and only when the deque is empty, and
    // nothing only when there is no leaky one either.
    && (Taken(s.pool) == None <==> s.pool.free == [] && s.pool.leaky == None)
    && (Taken(s.pool) == Some(b) ==> b !in s.held || (s.pool.leaky == Some(b) && s.pool.free == []))
  }

  lemma InvPartitions(s: Shared, count: nat, leaky: bool, b: Buffer)
    requires Inv(s, Made(count, leaky)) && s.pool.leaky == Fresh(count, leaky).leaky
    ensures Partitioned(s, count, b)
  {
    assert b < count ==> Fresh(count, leaky).free[b] == b;
    assert b in s.held <==> s.held[b] > 0;
    assert s.pool.free != [] ==> s.pool.free[0] in s.pool.free;
  }

  /** Pool conservation, in every interleaving of checkouts, copies and releases. */
  lemma PoolConservation(count: nat, leaky: bool, es: seq<Event>, b: Buffer)
    requires Legal(Shared(Fresh(count, leaky), multiset{}), es)
    ensures var s := Run(Shared(Fresh(count, leaky), multiset{}), es);
            Partitioned(s, count, b) && s.pool.leaky == Fresh(count, leaky).leaky
  {
    hide Partitioned, Conserves, Made;
    FreshConserves(count, leaky);
    var s := Shared(Fresh(count, leaky), multiset{});
    RunKeeps(s, Made(count, leaky), es);
    InvPartitions(Run(s, es), count, leaky, b);
  }

  // ---- Order -------------------------------------------------------------------------------

  /** The buffer an event takes from the deque, and the buffer it puts there, if any. */
  function Out(s: Shared, e: Event): seq<Buffer> {
    if e.Checkout? && s.pool.free != [] then [s.pool.free[0]] else []
  }

  function Back(s: Shared, e: Event): seq<Buffer> {
    if e.Drop? && e.b in s.pool.refs && s.pool.refs[e.b] == 1 && s.pool.leaky != Some(e.b) then [e.b] else []
  }

  function Outs(s: Shared, es: seq<Event>): seq<Buffer>
    decreases |es|
  {
    if es == [] then [] else Out(s, es[0]) + Outs(Step(s, es[0]), es[1..])
  }

  function Backs(s: Shared, es: seq<Event>): seq<Buffer>
    decreases |es|
  {
    if es == [] then [] else Back(s, es[0]) + Backs(Step(s, es[0]), es[1..])
  }

  lemma StepOrder(s: Shared, e: Event)
    ensures Out(s, e) + Step(s, e).pool.free == s.pool.free + Back(s, e)
  {
  }

  /** The deque is first in, first out: what was taken from it followed by what is still free is what was
      there at first followed by what came back. */
  lemma {:induction false} FirstInFirstOut(s: Shared, es: seq<Event>)
    ensures Outs(s, es) + Run(s, es).pool.free == s.pool.free + Backs(s, es)
    decreases |es|
  {
    hide Step, Out, Back;
    if es == [] {
      assert s.pool.free + [] == [] + s.pool.free;
    } else {
      var e, t, rest := es[0], Step(s, es[0]), es[1..];
      FirstInFirstOut(t, rest);
      StepOrder(s, e);
      Chain(Out(s, e), t.pool.free, s.pool.free, Back(s, e), Outs(t, rest), Run(t, rest).pool.free, Backs(t, rest));
    }
  }

  // ---- The pool objects --------------------------------------------------------------------

  /** The deque, with the reference counts the runtime keeps for the pointers it hands out. `GetReadBuffer`
      and `CopyToWriteBuffer` share this code, up to what an empty deque hands out. */
  class BufferDeque {
    const leaky: Option<Buffer>
    var buffers: seq<Buffer>
    var counts: map<Buffer, nat>

    ghost function View(): Pool
      reads this
    {
      Pool(buffers, counts, leaky)
    }

    constructor (count: nat, hasLeaky: bool)
      ensures View() == Fresh(count, hasLeaky)
    {
      var made := [];
      for i := 0 to count
        invariant made == seq(i, j => j)
      {
        made := made + [i];
      }
      buffers := made;
      if hasLeaky {
        leaky, counts := Some(count), map[count := 1];
      } else {
        leaky, counts := None, map[];
      }
    }

    /** A pointer is copied. */
    method Retain(b: Buffer)
      modifies this
      ensures View() == Share(old(View()), b)
    {
      if b in counts && counts[b] > 0 {
        counts := counts[b := counts[b] + 1];
      }
    }

    /** The pointer handed out, if any. */
    method Checkout() returns (b: Option<Buffer>)
      modifies this
      ensures View() == Take(old(View())) && b == Taken(old(View()))
    {
      if buffers == [] {
        if leaky.Some? {
          Retain(leaky.value);
        }
        return leaky;
      }
      b := Some(buffers[0]);
      buffers := buffers[1..];
      counts := counts[b.value := 1];
    }

    /** A pointer goes away. When it was the last, its deleter runs: the lambda that pushes the buffer back,
        or the default one for the leaky buffer. */
    method Drop(b: Buffer)
      modifies this
      ensures View() == Release(old(View()), b)
    {
      if b !in counts || counts[b] == 0 {
        return;
      }
      if counts[b] > 1 {
        counts := counts[b := counts[b] - 1];
        return;
      }
      counts := counts - {b};
      if leaky != Some(b) {
        buffers := buffers + [b];
      }
    }
  }

  /** The object follows the pool through every run, and the leaky buffer stays out of its deque. */
  method RunAll(count: nat, hasLeaky: bool, es: seq<Event>) returns (deque: BufferDeque)
    requires Legal(Shared(Fresh(count, hasLeaky), multiset{}), es)
    ensures fresh(deque) && deque.View() == Run(Shared(Fresh(count, hasLeaky), multiset{}), es).pool
    ensures deque.leaky.Some? ==> deque.leaky.value !in deque.buffers && deque.leaky.value in deque.counts
  {
    deque := new BufferDeque(count, hasLeaky);
    ghost var start := Shared(deque.View(), multiset{});
    ghost var s := start;
    for i := 0 to |es|
      invariant fresh(deque) && deque.View() == s.pool
      invariant Run(s, es[i..]) == Run(start, es)
    {
      assert es[i..][1..] == es[i + 1..];
      match es[i] {
        case Checkout => var _ := deque.Checkout();
        case Copy(b) => deque.Retain(b);
        case Drop(b) => deque.Drop(b);
      }
      s := Step(s, es[i]);
    }
    assert es[|es|..] == [];
    PoolConservation(count, hasLeaky, es, count);
  }
}
