/** The prototype's buffer pool: a doubly linked list between two dummy nodes, relinked in place, standing
    for a first-in-first-out queue of buffers. */
module BufferPool {
  import opened Common

  /** The range of the unsigned type the counts are returned in. */
  const SIZE_RANGE: nat := 0x1_0000_0000_0000_0000

  // ---- The queue and its runs --------------------------------------------------------------

  /** Calls on the pool, and what callers do with the shared pointers they hold. */
  datatype Event<T> = Take | Copy(buffer: T) | Discard(buffer: T) | GiveBack(buffer: T) | GiveBackRaw(buffer: T)

  /** `held` are the pointers callers hold; `out` holds every buffer taken and not yet put back. */
  datatype State<T> = State(store: seq<T>, queue: seq<T>, held: multiset<T>, out: multiset<T>)

  function Initial<T>(store: seq<T>): State<T> {
    State(store, store, multiset{}, multiset{})
  }

  /** Callers copy, drop and give back only pointers they hold. Pointers to buffers the pool never made may
      turn up. */
  predicate Enabled<T(==)>(s: State<T>, e: Event<T>) {
    match e
    case Copy(b) => b in s.held || b !in s.store
    case Discard(b) => b in s.held
    case GiveBack(b) => b in s.held
    case _ => true
  }

  /** What the runtime counts: a pointer in the store, one in each node, and the callers'. */
  function UseCount<T(==)>(s: State<T>, b: T): nat {
    multiset(s.store)[b] + multiset(s.queue)[b] + s.held[b]
  }

  function PutBack<T(==)>(s: State<T>, b: T): State<T> {
    s.(queue := s.queue + [b], out := s.out - multiset{b})
  }

  function Step<T(==)>(s: State<T>, e: Event<T>): State<T> {
    match e
    case Take =>
      if s.queue == [] then s
      else
        var b := s.queue[0];
        s.(queue := s.queue[1..], held := s.held + multiset{b}, out := s.out + multiset{b})
    case Copy(b) => s.(held := s.held + multiset{b})
    case Discard(b) => s.(held := s.held - multiset{b})
    case GiveBack(b) =>
      var t := s.(held := s.held - multiset{b});
      if UseCount(s, b) > 2 then t else PutBack(t, b)
    case GiveBackRaw(b) => if b in s.store then PutBack(s, b) else s
  }

  /** A put-back that takes effect although its buffer is not out. */
  predicate Intrudes<T(==)>(s: State<T>, e: Event<T>) {
    match e
    case GiveBack(b) => UseCount(s, b) <= 2 && b !in s.out
    case GiveBackRaw(b) => b in s.store && b !in s.out
    case _ => false
  }

  predicate Legal<T(==)>(s: State<T>, es: seq<Event<T>>)
    decreases |es|
  {
    es == [] || (Enabled(s, es[0]) && Legal(Step(s, es[0]), es[1..]))
  }

  function Run<T(==)>(s: State<T>, es: seq<Event<T>>): State<T>
    decreases |es|
  {
    if es == [] then s else Run(Step(s, es[0]), es[1..])
  }

  function Intrusions<T(==)>(s: State<T>, es: seq<Event<T>>): nat
    decreases |es|
  {
    if es == [] then 0 else (if Intrudes(s, es[0]) then 1 else 0) + Intrusions(Step(s, es[0]), es[1..])
  }

  /** All buffers accounted for, queued or out. */
  function Total<T>(s: State<T>): multiset<T> {
    multiset(s.queue) + s.out
  }

  lemma TakeTotal<T>(s: State<T>)
    ensures Total(Step(s, Take)) == Total(s)
  {
    if s.queue != [] {
      assert s.queue == [s.queue[0]] + s.queue[1..];
    }
  }

  lemma PutBackTotal<T>(s: State<T>, b: T)
    ensures Total(PutBack(s, b)) == if b in s.out then Total(s) else Total(s) + multiset{b}
  {
    assert multiset(s.queue + [b]) == multiset(s.queue) + multiset{b};
    if b in s.out {
      assert multiset{b} + (s.out - multiset{b}) == s.out;
    } else {
      assert s.out - multiset{b} == s.out;
    }
  }

  lemma HeldIsBeside<T>(s: State<T>, held: multiset<T>)
    ensures Total(s.(held := held)) == Total(s)
  {
  }

  /** One call keeps every buffer accounted for, except that an intrusion adds one more. */
  lemma StepTotal<T>(s: State<T>, e: Event<T>)
    ensures Step(s, e).store == s.store
    ensures Total(Step(s, e)) == if Intrudes(s, e) then Total(s) + multiset{e.buffer} else Total(s)
  {
    hide Total, UseCount;
    match e
    case Take => TakeTotal(s);
    case Copy(b) => HeldIsBeside(s, s.held + multiset{b});
    case Discard(b) => HeldIsBeside(s, s.held - multiset{b});
    case GiveBack(b) =>
      HeldIsBeside(s, s.held - multiset{b});
      PutBackTotal(s.(held := s.held - multiset{b}), b);
    case GiveBackRaw(b) => PutBackTotal(s, b);
  }

  /** Every run, disciplined or not: nothing accounted for is ever lost, and the surplus is exactly the number
      of intrusions. */
  lemma {:induction false} RunTotal<T>(s: State<T>, es: seq<Event<T>>)
    ensures var t := Run(s, es);
            t.store == s.store && Total(s) <= Total(t) && |Total(t)| == |Total(s)| + Intrusions(s, es)
    decreases |es|
  {
    hide Step, Total, Intrudes;
    if es == [] {
    } else {
      StepTotal(s, es[0]);
      RunTotal(Step(s, es[0]), es[1..]);
    }
  }

  lemma SameSize<T>(a: multiset<T>, b: multiset<T>)
    requires a <= b && |a| == |b|
    ensures a == b
  {
    assert b == a + (b - a);
  }

  /** Conservation, exactly: queued and outstanding buffers are together the store, and `available` plus
      `outbound` its size, after a run if and only if no put-back that took effect named a buffer that was
      not out. */
  lemma ConservedIff<T>(store: seq<T>, es: seq<Event<T>>)
    ensures var s, t := Initial(store), Run(Initial(store), es);
            && |t.queue| + |t.out| == |store| + Intrusions(s, es)
            && (|t.queue| + |t.out| == |store| <==> Intrusions(s, es) == 0)
            && (multiset(t.queue) + t.out == multiset(store) <==> Intrusions(s, es) == 0)
  {
    var s, t := Initial(store), Run(Initial(store), es);
    RunTotal(s, es);
    assert Total(s) == multiset(store);
    assert |Total(t)| == |multiset(t.queue)| + |t.out|;
    if Intrusions(s, es) == 0 {
      SameSize(Total(s), Total(t));
    }
  }

  /** The last caller to hold a buffer of the store gets it back into the queue, at the end; with another holder,
      or a node, about, nothing is put back. */
  lemma OnlyHolderReturns<T>(s: State<T>, b: T)
    requires multiset(s.store)[b] == 1 && s.held[b] >= 1
    ensures Step(s, GiveBack(b)).queue ==
            if s.held[b] == 1 && b !in s.queue then s.queue + [b] else s.queue
    ensures Step(s, GiveBack(b)).held == s.held - multiset{b}
  {
    assert b in s.queue <==> multiset(s.queue)[b] > 0;
  }

  // ---- Order -------------------------------------------------------------------------------

  /** The buffer an event takes from the queue, and the buffer it puts there, if any. */
  function Out<T>(s: State<T>, e: Event<T>): seq<T> {
    if e.Take? && s.queue != [] then [s.queue[0]] else []
  }

  function Back<T(==)>(s: State<T>, e: Event<T>): seq<T> {
    match e
    case GiveBack(b) => if UseCount(s, b) <= 2 then [b] else []
    case GiveBackRaw(b) => if b in s.store then [b] else []
    case _ => []
  }

  function Outs<T(==)>(s: State<T>, es: seq<Event<T>>): seq<T>
    decreases |es|
  {
    if es == [] then [] else Out(s, es[0]) + Outs(Step(s, es[0]), es[1..])
  }

  function Backs<T(==)>(s: State<T>, es: seq<Event<T>>): seq<T>
    decreases |es|
  {
    if es == [] then [] else Back(s, es[0]) + Backs(Step(s, es[0]), es[1..])
  }

  lemma StepOrder<T>(s: State<T>, e: Event<T>)
    ensures Out(s, e) + Step(s, e).queue == s.queue + Back(s, e)
  {
  }

  /** The queue is first in, first out: over every run, what was taken followed by what is queued is what was
      queued at first followed by what came back. */
  lemma {:induction false} FirstInFirstOut<T>(s: State<T>, es: seq<Event<T>>)
    ensures Outs(s, es) + Run(s, es).queue == s.queue + Backs(s, es)
    decreases |es|
  {
    hide Step, Out, Back;
    if es == [] {
      assert s.queue + [] == [] + s.queue;
    } else {
      var e, t, rest := es[0], Step(s, es[0]), es[1..];
      FirstInFirstOut(t, rest);
      StepOrder(s, e);
      Chain(Out(s, e), t.queue, s.queue, Back(s, e), Outs(t, rest), Run(t, rest).queue, Backs(t, rest));
    }
  }

  // ---- Who holds what ----------------------------------------------------------------------

  /** The pointers an event gives callers, and the ones it takes from them. */
  function Got<T>(s: State<T>, e: Event<T>): multiset<T> {
    match e
    case Take => if s.queue == [] then multiset{} else multiset{s.queue[0]}
    case Copy(b) => multiset{b}
    case _ => multiset{}
  }

  function Gone<T>(e: Event<T>): multiset<T> {
    match e
    case Discard(b) => multiset{b}
    case GiveBack(b) => multiset{b}
    case _ => multiset{}
  }

  function AllGot<T(==)>(s: State<T>, es: seq<Event<T>>): multiset<T>
    decreases |es|
  {
    if es == [] then multiset{} else Got(s, es[0]) + AllGot(Step(s, es[0]), es[1..])
  }

  function AllGone<T>(es: seq<Event<T>>): multiset<T> {
    if es == [] then multiset{} else Gone(es[0]) + AllGone(es[1..])
  }

  lemma StepHolds<T>(s: State<T>, e: Event<T>)
    requires Enabled(s, e)
    ensures Step(s, e).held + Gone(e) == s.held + Got(s, e)
  {
    if e.Discard? || e.GiveBack? {
      assert (s.held - multiset{e.buffer}) + multiset{e.buffer} == s.held;
    }
  }

  lemma Exchange<T>(a: multiset<T>, x: multiset<T>, y: multiset<T>, b: multiset<T>, g: multiset<T>, c: multiset<T>,
                    f: multiset<T>)
    requires a + y == b + g && b + x == c + f
    ensures a + (x + y) == c + (f + g)
  {
    assert a + (x + y) == (a + y) + x == (b + x) + g == c + (f + g);
  }

  /** Callers hold what they took and copied, less what they discarded and gave back, over every run. */
  lemma {:induction false} HeldIs<T>(s: State<T>, es: seq<Event<T>>)
    requires Legal(s, es)
    ensures Run(s, es).held + AllGone(es) == s.held + AllGot(s, es)
    decreases |es|
  {
    hide Step, Enabled, Got, Gone;
    if es == [] {
    } else {
      var e, t, rest := es[0], Step(s, es[0]), es[1..];
      HeldIs(t, rest);
      StepHolds(s, e);
      Exchange(Run(t, rest).held, Gone(e), AllGone(rest), t.held, AllGot(t, rest), s.held, Got(s, e));
    }
  }

  // ---- Who can intrude ---------------------------------------------------------------------

  /** While nothing has been lost, the use count keeps a shared pointer to a buffer of the store from
      intruding: a count of two leaves no room for a node that holds it too. */
  lemma CountedReturnIsSafe<T>(s: State<T>, b: T)
    requires multiset(s.store) <= Total(s) && b in s.store && b in s.held
    ensures !Intrudes(s, GiveBack(b))
  {
    if UseCount(s, b) <= 2 {
      assert multiset(s.store)[b] >= 1 && s.held[b] >= 1;
      assert Total(s)[b] == multiset(s.queue)[b] + s.out[b] >= 1;
    }
  }

  /** Only the pool's own buffers are about. */
  ghost predicate Closed<T>(s: State<T>) {
    && multiset(s.store) <= Total(s)
    && (forall b :: b in s.queue ==> b in s.store)
    && (forall b :: b in s.held ==> b in s.store)
  }

  /** The event neither returns a bare address nor brings in a pointer from elsewhere. */
  predicate Shared<T(==)>(store: seq<T>, e: Event<T>) {
    !e.GiveBackRaw? && (e.Copy? ==> e.buffer in store)
  }

  lemma StepCloses<T>(s: State<T>, e: Event<T>)
    requires Closed(s) && Enabled(s, e) && Shared(s.store, e)
    ensures Closed(Step(s, e)) && !Intrudes(s, e)
  {
    StepTotal(s, e);
    if e.GiveBack? {
      CountedReturnIsSafe(s, e.buffer);
    }
  }

  lemma {:induction false} SharedNeverIntrude<T>(s: State<T>, es: seq<Event<T>>)
    requires Closed(s) && Legal(s, es) && forall e :: e in es ==> Shared(s.store, e)
    ensures Intrusions(s, es) == 0
    decreases |es|
  {
    hide Closed, Step, Enabled, Shared, Intrudes;
    if es == [] {
    } else {
      assert es[0] in es;
      StepCloses(s, es[0]);
      StepTotal(s, es[0]);
      SharedNeverIntrude(Step(s, es[0]), es[1..]);
    }
  }

  /** So callers that only use the shared pointers they were given cannot break the pool, however often they
      copy them and give them back: the counts always add up. */
  lemma SharedPointersConserve<T>(store: seq<T>, es: seq<Event<T>>)
    requires Legal(Initial(store), es) && forall e :: e in es ==> Shared(store, e)
    ensures var t := Run(Initial(store), es);
            multiset(t.queue) + t.out == multiset(store) && |t.queue| + |t.out| == |store|
  {
    assert Closed(Initial(store));
    SharedNeverIntrude(Initial(store), es);
    ConservedIff(store, es);
  }

  /** Bare addresses can: the same one returned twice makes the queue longer than the store. */
  lemma DoubleFreeOverflows()
    ensures var es: seq<Event<int>> := [Take, GiveBackRaw(0), GiveBackRaw(0)];
            Legal(Initial([0]), es) && |Run(Initial([0]), es).queue| == 2
  {
    var es: seq<Event<int>> := [Take, GiveBackRaw(0), GiveBackRaw(0)];
    var s1 := Step(Initial([0]), es[0]);
    var s2 := Step(s1, es[1]);
    var s3 := Step(s2, es[2]);
    assert es[1..] == [GiveBackRaw(0), GiveBackRaw(0)] && es[1..][1..] == [GiveBackRaw(0)] && es[1..][1..][1..] == [];
    assert Run(Initial([0]), es) == Run(s1, es[1..]) == Run(s2, es[1..][1..]) == Run(s3, es[1..][1..][1..]) == s3;
    assert s2.queue == [0];
  }

  // ---- The runtime's counts ----------------------------------------------------------------

  /** All the pointers there are: the store's, the nodes' and the callers'. */
  ghost function Pointers<T>(s: State<T>): multiset<T> {
    multiset(s.store) + multiset(s.queue) + s.held
  }

  /** A buffer taken moves its pointer from the node to the caller. */
  lemma TakeCounts<T>(s: State<T>)
    ensures Pointers(Step(s, Take)) == Pointers(s)
  {
    if s.queue != [] {
      assert s.queue == [s.queue[0]] + s.queue[1..];
    }
  }

  lemma DropCounts<T>(s: State<T>, b: T)
    requires b in s.held
    ensures Pointers(s.(held := s.held - multiset{b})) == Pointers(s) - multiset{b}
  {
    assert s.held == (s.held - multiset{b}) + multiset{b};
  }

  /** A node gets a pointer of its own. */
  lemma PutBackCounts<T>(s: State<T>, b: T)
    ensures Pointers(PutBack(s, b)) == Pointers(s) + multiset{b}
  {
    assert multiset(s.queue + [b]) == multiset(s.queue) + multiset{b};
  }

  lemma CountIsUseCount<T>(s: State<T>, b: T)
    ensures Pointers(s)[b] == UseCount(s, b)
    ensures b in s.held ==> Pointers(s)[b] > 0
  {
  }

  /** Taking a pointer away and adding one leaves the count. */
  lemma TakeOne<T>(counts: multiset<T>, b: T)
    ensures b in counts ==> counts - multiset{b} + multiset{b} == counts
  {
  }

  /** A buffer given back moves its pointer from the caller to the node. */
  lemma MoveCounts<T>(s: State<T>, b: T)
    requires b in s.held
    ensures Pointers(PutBack(s.(held := s.held - multiset{b}), b)) == Pointers(s)
  {
    DropCounts(s, b);
    PutBackCounts(s.(held := s.held - multiset{b}), b);
    CountIsUseCount(s, b);
    TakeOne(Pointers(s), b);
  }

  // ---- The linked list ---------------------------------------------------------------------

  class Node<T> {
    var previous: Node?<T>
    var buffer: Option<T>
    var next: Node?<T>

    constructor (buffer: Option<T>)
      ensures this.buffer == buffer && previous == null && next == null
    {
      this.buffer := buffer;
      previous, next := null, null;
    }
  }

  /** Nodes linked both ways, front to back. */
  ghost predicate Chained<T>(chain: seq<Node<T>>)
    reads chain
  {
    && (forall i, j :: 0 <= i < j < |chain| ==> chain[i] != chain[j])
    && (forall i {:trigger chain[i].next} :: 0 <= i < |chain| - 1 ==> chain[i].next == chain[i + 1])
    && (forall i {:trigger chain[i].previous} :: 0 < i < |chain| ==> chain[i].previous == chain[i - 1])
  }

  /** A dummy head followed by one node for each buffer. */
  method BuildChain<T>(store: seq<T>) returns (head: Node<T>, node: Node<T>, ghost chain: seq<Node<T>>)
    ensures |chain| == |store| + 1 && chain[0] == head && chain[|store|] == node
    ensures fresh(chain) && Chained(chain) && head.previous == null
    ensures forall j :: 0 < j <= |store| ==> chain[j].buffer == Some(store[j - 1])
  {
    head := new Node<T>(None);
    node, chain := head, [head];
    for i := 0 to |store|
      invariant |chain| == i + 1 && chain[0] == head && chain[i] == node
      invariant fresh(chain) && Chained(chain) && head.previous == null
      invariant forall j :: 0 < j <= i ==> chain[j].buffer == Some(store[j - 1])
    {
      var newNode := new Node<T>(Some(store[i]));
      node.next := newNode;
      newNode.previous := node;
      ghost var before := chain;
      chain := chain + [newNode];
      assert forall j :: 0 <= j <= i ==> chain[j] == before[j];
      node := newNode;
    }
  }

  /** The whole list, closed by a dummy tail. */
  method BuildList<T>(store: seq<T>) returns (head: Node<T>, tail: Node<T>, ghost chain: seq<Node<T>>)
    ensures |chain| == |store| + 2 && chain[0] == head && chain[|store| + 1] == tail
    ensures fresh(chain) && Chained(chain) && head.previous == null && tail.next == null
    ensures forall j :: 0 < j <= |store| ==> chain[j].buffer == Some(store[j - 1])
  {
    var node;
    ghost var front;
    head, node, front := BuildChain(store);
    tail := new Node<T>(None);
    node.next := tail;
    tail.previous := node;
    chain := front + [tail];
    assert forall j :: 0 <= j < |front| ==> chain[j] == front[j];
  }

  /** Links a new node in just before the tail of a chain. */
  method LinkBefore<T>(node: Node<T>, tail: Node<T>, ghost last: Node<T>, ghost chain: seq<Node<T>>)
    requires |chain| >= 2 && chain[|chain| - 1] == tail && chain[|chain| - 2] == last
    requires Chained(chain) && node !in chain
    requires chain[0].previous == null
    modifies node`previous, node`next, last`next, tail`previous
    ensures Chained(chain[..|chain| - 1] + [node, tail]) && chain[0].previous == null
    ensures tail.next == old(tail.next)
  {
    ghost var n := |chain|;
    assert chain[n - 1].previous == chain[n - 2];
    node.previous := tail.previous;
    tail.previous.next := node;
    node.next := tail;
    tail.previous := node;
    ghost var longer := chain[..n - 1] + [node, tail];
    assert forall i :: 0 <= i < n - 1 ==> longer[i] == chain[i];
  }

  /** The runtime of the shared pointers: how many there are to each buffer. What callers hold and which
      buffers are out is for the proofs. */
  class Runtime<T(==)> {
    var counts: multiset<T>
    ghost var held: multiset<T>
    ghost var out: multiset<T>

    /** `s` is what is going on, as far as this object and a queue can tell. */
    ghost predicate Tracks(s: State<T>)
      reads this
    {
      counts == Pointers(s) && held == s.held && out == s.out
    }

    /** Construction of a pool makes two pointers to each buffer: the store's and its node's. */
    constructor (store: seq<T>)
      ensures Tracks(Initial(store))
    {
      counts, held, out := multiset(store) + multiset(store), multiset{}, multiset{};
    }

    /** A caller copies a pointer it holds, or one from elsewhere turns up. */
    method CopyPointer(buffer: T, ghost s: State<T>)
      requires Tracks(s)
      modifies this
      ensures Tracks(Step(s, Copy(buffer)))
    {
      counts, held := counts + multiset{buffer}, held + multiset{buffer};
    }

    method DropPointer(buffer: T, ghost s: State<T>)
      requires Tracks(s) && buffer in s.held
      modifies this
      ensures Tracks(s.(held := s.held - multiset{buffer}))
    {
      DropCounts(s, buffer);
      counts, held := counts - multiset{buffer}, held - multiset{buffer};
    }

    /** A pointer is moved from a node to a caller. */
    method MoveOut(ghost s: State<T>)
      requires Tracks(s) && s.queue != []
      modifies this
      ensures Tracks(Step(s, Take)) && counts == old(counts)
    {
      TakeCounts(s);
      held, out := held + multiset{s.queue[0]}, out + multiset{s.queue[0]};
    }

    /** A pointer is moved from a caller to a node. */
    method MoveIn(buffer: T, ghost s: State<T>)
      requires Tracks(s) && buffer in s.held
      modifies this
      ensures Tracks(PutBack(s.(held := s.held - multiset{buffer}), buffer)) && counts == old(counts)
    {
      hide Pointers;
      MoveCounts(s, buffer);
      held, out := held - multiset{buffer}, out - multiset{buffer};
    }

    /** The store's pointer is copied into a node. */
    method CopyIn(buffer: T, ghost s: State<T>)
      requires Tracks(s)
      modifies this
      ensures Tracks(PutBack(s, buffer))
    {
      PutBackCounts(s, buffer);
      counts, out := counts + multiset{buffer}, out - multiset{buffer};
    }
  }

  class Pool<T(==)> {
    const head: Node<T>
    const tail: Node<T>
    const store: seq<T>
    var available: nat
    /** The chain from head to tail. No code reads this. */
    ghost var spine: seq<Node<T>>

    /** The forward chain is acyclic, starts at the head, ends at the tail, the back links mirror it, every
        inner node carries a buffer, and the counter is its length. */
    ghost predicate Valid()
      reads this, spine
    {
      && |spine| >= 2 && spine[0] == head && spine[|spine| - 1] == tail
      && Chained(spine)
      && head.previous == null && tail.next == null
      && (forall i :: 0 < i < |spine| - 1 ==> spine[i].buffer.Some?)
      && available == |spine| - 2
    }

    /** The queue the list stands for. */
    ghost function Contents(): (s: seq<T>)
      requires Valid()
      reads this, spine
      ensures |s| == available
    {
      seq(|spine| - 2, i requires 0 <= i < |spine| - 2 && spine[i + 1].buffer.Some? reads this, spine =>
        spine[i + 1].buffer.value)
    }

    /** The pool and the runtime are in state `s`. */
    ghost predicate In(s: State<T>, runtime: Runtime<T>)
      reads this, spine, runtime
    {
      Valid() && s.store == store && s.queue == Contents() && runtime.Tracks(s)
    }

    constructor (store: seq<T>)
      ensures Valid() && fresh(spine) && this.store == store && Contents() == store
    {
      this.store := store;
      available := |store|;
      var first, last, chain := BuildList(store);
      head, tail := first, last;
      spine := chain;
    }

    method PopFront() returns (r: Option<T>)
      requires Valid()
      modifies this, spine
      ensures Valid() && fresh(set n | n in spine && n !in old(spine))
      ensures r == if old(Contents()) == [] then None else Some(old(Contents())[0])
      ensures Contents() == if old(Contents()) == [] then [] else old(Contents())[1..]
    {
      ghost var chain := spine;
      assert chain[0].next == chain[1];
      if head.next == tail {
        assert |chain| == 2;
        return None;
      }
      assert chain[1].next == chain[2];
      var node := head.next;
      head.next := node.next;
      node.next.previous := head;
      available := available - 1;
      r := node.buffer;
      node.buffer := None;
      spine := [head] + spine[2..];
      assert forall i :: 1 <= i < |spine| ==> spine[i] == chain[i + 1];
    }

    /** Takes the front buffer; `None` is the underflow error. */
    method New(runtime: Runtime<T>, ghost s: State<T>) returns (r: Option<T>)
      requires In(s, runtime)
      modifies this, spine, runtime
      ensures In(Step(s, Take), runtime) && fresh(set n | n in spine && n !in old(spine))
      ensures r == if s.queue == [] then None else Some(s.queue[0])
    {
      hide Valid, Pointers;
      r := PopFront();
      if r.Some? {
        runtime.MoveOut(s);
      }
    }

    method PushBack(buffer: T)
      requires Valid()
      modifies this, spine
      ensures Valid() && fresh(set n | n in spine && n !in old(spine))
      ensures Contents() == old(Contents()) + [buffer]
    {
      hide Chained;
      var node := new Node<T>(Some(buffer));
      ghost var chain, was := spine, Contents();
      LinkBefore(node, tail, chain[|chain| - 2], chain);
      available := available + 1;
      spine := chain[..|chain| - 1] + [node, tail];
      assert forall i :: 0 < i < |chain| - 1 ==> spine[i] == chain[i] && chain[i].buffer == Some(was[i - 1]);
    }

    /** Returns a buffer to the back, unless the use count says someone besides the store and the caller still
        holds it. Either way the caller's pointer is gone. */
    method Free(buffer: T, runtime: Runtime<T>, ghost s: State<T>)
      requires In(s, runtime) && Enabled(s, GiveBack(buffer))
      modifies this, spine, runtime
      ensures In(Step(s, GiveBack(buffer)), runtime) && fresh(set n | n in spine && n !in old(spine))
    {
      hide Valid, Pointers;
      CountIsUseCount(s, buffer);
      if runtime.counts[buffer] > 2 {
        runtime.DropPointer(buffer, s);
        return;
      }
      runtime.MoveIn(buffer, s);
      PushBack(buffer);
    }

    /** The buffer's position in the store, or the store's length. */
    method FindInStore(buffer: T) returns (i: nat)
      ensures i <= |store| && (i < |store| ==> store[i] == buffer) && (i == |store| <==> buffer !in store)
    {
      i := 0;
      while i < |store| && store[i] != buffer
        invariant 0 <= i <= |store| && buffer !in store[..i]
      {
        i := i + 1;
      }
      assert store[..|store|] == store;
    }

    /** Returns a buffer known only by its address; `false` is the untracked-buffer error. */
    method FreeRaw(buffer: T, runtime: Runtime<T>, ghost s: State<T>) returns (ok: bool)
      requires In(s, runtime)
      modifies this, spine, runtime
      ensures In(Step(s, GiveBackRaw(buffer)), runtime) && fresh(set n | n in spine && n !in old(spine))
      ensures ok == (buffer in store)
    {
      hide Valid, Pointers, UseCount;
      var i := FindInStore(buffer);
      if i == |store| {
        return false;
      }
      runtime.CopyIn(buffer, s);
      PushBack(store[i]);
      return true;
    }

    /** One event of a run, by name. */
    method Perform(e: Event<T>, runtime: Runtime<T>, ghost s: State<T>)
      requires In(s, runtime) && Enabled(s, e)
      modifies this, spine, runtime
      ensures In(Step(s, e), runtime) && fresh(set n | n in spine && n !in old(spine))
    {
      hide Valid, Pointers;
      match e
      case Take => var _ := New(runtime, s);
      case Copy(b) => runtime.CopyPointer(b, s);
      case Discard(b) => runtime.DropPointer(b, s);
      case GiveBack(b) => Free(b, runtime, s);
      case GiveBackRaw(b) => var _ := FreeRaw(b, runtime, s);
    }

    method AvailableBuffers() returns (n: nat)
      requires Valid()
      ensures n == |Contents()|
    {
      n := available;
    }

    /** An unsigned difference: it wraps around once more buffers are queued than the store has. */
    method OutboundBuffers() returns (n: nat)
      requires Valid()
      ensures n == (|store| - |Contents()|) % SIZE_RANGE
    {
      n := (|store| - available) % SIZE_RANGE;
    }
  }

  /** The linked list and the runtime follow the queue through every run. */
  method RunAll<T(==)>(store: seq<T>, es: seq<Event<T>>) returns (pool: Pool<T>, runtime: Runtime<T>)
    requires Legal(Initial(store), es)
    ensures fresh(pool) && fresh(runtime) && pool.In(Run(Initial(store), es), runtime)
    ensures pool.store == store
  {
    hide Chained, Step, Pointers, Enabled;
    pool := new Pool<T>(store);
    runtime := new Runtime<T>(store);
    ghost var s := Initial(store);
    for i := 0 to |es|
      invariant fresh(pool) && fresh(pool.spine) && fresh(runtime) && pool.In(s, runtime)
      invariant Legal(s, es[i..]) && Run(s, es[i..]) == Run(Initial(store), es)
    {
      assert es[i..][1..] == es[i + 1..];
      pool.Perform(es[i], runtime, s);
      s := Step(s, es[i]);
    }
  }

  lemma OutboundIsOut<T>(store: seq<T>, es: seq<Event<T>>)
    requires |store| < SIZE_RANGE && Intrusions(Initial(store), es) == 0
    ensures var t := Run(Initial(store), es);
            (|store| - |t.queue|) % SIZE_RANGE == |t.out| && |t.queue| + |t.out| == |store|
  {
    hide Run, Intrusions;
    ConservedIff(store, es);
  }

  /** So its two counts are what is queued and what is out, and add up to the store, after every run without
      an intrusion. */
  method CountsAfter<T(==)>(store: seq<T>, es: seq<Event<T>>) returns (available: nat, outbound: nat)
    requires |store| < SIZE_RANGE && Legal(Initial(store), es)
    ensures var t := Run(Initial(store), es);
            && available == |t.queue| && outbound == (|store| - |t.queue|) % SIZE_RANGE
            && (Intrusions(Initial(store), es) == 0 ==> outbound == |t.out| && available + outbound == |store|)
  {
    hide Pool<T>.Valid, Runtime<T>.Tracks, Run, Intrusions;
    var pool, runtime := RunAll(store, es);
    available := pool.AvailableBuffers();
    outbound := pool.OutboundBuffers();
    if Intrusions(Initial(store), es) == 0 {
      OutboundIsOut(store, es);
    }
  }
}
