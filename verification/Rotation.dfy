/** The cyclic order behind the headset button: rotating and resetting one writer's camera. */
module Rotation {
  import opened AddressOrder
  import opened Cyclic
  import opened Assignment

  /** A writer watching a live camera that lists it. */
  predicate Watching(m: State, w: Addr) {
    w in m.assign && m.assign[w] in m.cameras && w !in m.unlisted
  }

  /** The index of the writer's camera in address order. */
  function Position(m: State, w: Addr): (p: nat)
    requires Watching(m, w)
    ensures p < |m.cameras| && Sorted(m.cameras.Keys)[p] == m.assign[w]
  {
    assert |m.cameras.Keys| == |m.cameras|;
    Index(m.cameras.Keys, m.assign[w])
  }

  /** What a headset wearer can do to the camera shown. */
  datatype Turn = Forward | Home

  function TurnOp(t: Turn, w: Addr): Op {
    match t
    case Forward => Rotate(w)
    case Home => Reset(w)
  }

  /** The state after a mix of turns. */
  function AfterTurns(m: State, w: Addr, ts: seq<Turn>): State {
    if ts == [] then m else Apply(AfterTurns(m, w, ts[..|ts| - 1]), TurnOp(ts[|ts| - 1], w))
  }

  /** Rotations after the last reset (all of them if there was none). */
  function SinceHome(ts: seq<Turn>): nat {
    if ts == [] || ts[|ts| - 1] == Home then 0 else SinceHome(ts[..|ts| - 1]) + 1
  }

  /** The state in which this writer watches camera number `p` and all else is as in `m`. */
  function Showing(m: State, w: Addr, p: nat): State
    requires p < |m.cameras|
  {
    assert |m.cameras.Keys| == |m.cameras|;
    m.(assign := m.assign[w := Sorted(m.cameras.Keys)[p]])
  }

  lemma NextAround(keys: set<Addr>, p: nat)
    requires p < |keys|
    ensures Next(keys, Sorted(keys)[p]) == Sorted(keys)[Around(p, |keys|)]
  {
    if p + 1 == |keys| {
      NextWraps(keys, p);
    } else {
      NextInside(keys, p);
    }
  }

  /** One turn moves this writer to the next position, or the first, and changes nothing else. */
  lemma TurnMoves(m: State, w: Addr, p: nat, t: Turn)
    requires Watching(m, w) && p < |m.cameras|
    ensures Apply(Showing(m, w, p), TurnOp(t, w)) ==
            Showing(m, w, if t == Home then 0 else Around(p, |m.cameras|))
  {
    hide Sorted, Next, First, WithReader, WithoutReader, WithWriter, WithoutWriter, PointedAt, AllRotated;
    var keys := m.cameras.Keys;
    assert |keys| == |m.cameras|;
    assert Sorted(keys)[p] in Sorted(keys);
    var before := Showing(m, w, p);
    if |keys| == 1 {
      assert Apply(before, TurnOp(t, w)) == before;
    } else if t == Home {
      SortedFirst(keys);
      assert before.assign[w := First(keys)] == m.assign[w := First(keys)];
    } else {
      NextAround(keys, p);
      assert before.assign[w := Next(keys, Sorted(keys)[p])] == m.assign[w := Next(keys, Sorted(keys)[p])];
    }
  }

  /** Where a position ends up in a ring of `n`. */
  function Walk(start: nat, ts: seq<Turn>, n: nat): (p: nat)
    requires start < n
    ensures p < n
  {
    if ts == [] then start
    else if ts[|ts| - 1] == Home then 0
    else Around(Walk(start, ts[..|ts| - 1], n), n)
  }

  lemma {:induction false} TurnsWalk(m: State, w: Addr, ts: seq<Turn>)
    requires Watching(m, w)
    ensures AfterTurns(m, w, ts) == Showing(m, w, Walk(Position(m, w), ts, |m.cameras|))
  {
    hide Apply, Position, Around;
    if ts == [] {
      assert m.assign[w := m.assign[w]] == m.assign;
    } else {
      TurnsWalk(m, w, ts[..|ts| - 1]);
      TurnMoves(m, w, Walk(Position(m, w), ts[..|ts| - 1], |m.cameras|), ts[|ts| - 1]);
    }
  }

  lemma {:induction false} WalkClosedForm(start: nat, ts: seq<Turn>, n: nat)
    requires start < n
    ensures Walk(start, ts, n) == ((if Home in ts then 0 else start) + SinceHome(ts)) % n
  {
    hide Around;
    if ts == [] {
      WithinTwoRounds(start, n);
    } else {
      var init, last := ts[..|ts| - 1], ts[|ts| - 1];
      assert ts == init + [last];
      if last == Home {
        WithinTwoRounds(0, n);
      } else {
        WalkClosedForm(start, init, n);
        AroundIsMod((if Home in init then 0 else start) + SinceHome(init), n);
      }
    }
  }

  /** After any mix of rotations and resets, the writer's camera is the one at index (rotations since the
      last reset) mod n in address order, counted from where it started if there was no reset. No other
      writer, camera or session changes. */
  lemma CameraAfterTurns(m: State, w: Addr, ts: seq<Turn>)
    requires Watching(m, w)
    ensures var from := if Home in ts then 0 else Position(m, w);
            AfterTurns(m, w, ts) == Showing(m, w, (from + SinceHome(ts)) % |m.cameras|)
  {
    hide AfterTurns, Walk, SinceHome, Position, Showing;
    TurnsWalk(m, w, ts);
    WalkClosedForm(Position(m, w), ts, |m.cameras|);
  }

  /** `k` rotations in a row. */
  function Forwards(k: nat): seq<Turn> {
    seq(k, _ => Forward)
  }

  lemma {:induction false} ForwardsWalk(p: nat, k: nat, n: nat)
    requires p < n && k <= n
    ensures Walk(p, Forwards(k), n) == if p + k < n then p + k else p + k - n
  {
    if k > 0 {
      assert Forwards(k)[..k - 1] == Forwards(k - 1);
      ForwardsWalk(p, k - 1, n);
    }
  }

  /** The camera shown after `k` rotations. */
  predicate Shows(m: State, w: Addr, k: nat, camera: Addr) {
    var m' := AfterTurns(m, w, Forwards(k));
    w in m'.assign && m'.assign[w] == camera
  }

  lemma ShowsAt(m: State, w: Addr, k: nat, camera: Addr)
    requires Watching(m, w) && camera in m.cameras && k <= |m.cameras|
    ensures var p, n := Position(m, w) + k, |m.cameras|;
            Shows(m, w, k, camera) <==> Index(m.cameras.Keys, camera) == if p < n then p else p - n
  {
    hide AfterTurns, Position, Walk, Sorted;
    TurnsWalk(m, w, Forwards(k));
    ForwardsWalk(Position(m, w), k, |m.cameras|);
  }

  /** A full tour: with n cameras each one is shown after exactly one of 0 .. n - 1 rotations, and the n-th
      rotation is back where it started. */
  lemma FullTour(m: State, w: Addr, camera: Addr)
    requires Watching(m, w) && camera in m.cameras
    ensures exists k: nat :: k < |m.cameras| && Shows(m, w, k, camera)
    ensures forall j: nat, k: nat ::
              j < |m.cameras| && k < |m.cameras| && Shows(m, w, j, camera) && Shows(m, w, k, camera) ==> j == k
    ensures AfterTurns(m, w, Forwards(|m.cameras|)) == m
  {
    hide AfterTurns, Shows, Position, Walk, Index, Sorted;
    var n, p, q := |m.cameras|, Position(m, w), Index(m.cameras.Keys, camera);
    assert |m.cameras.Keys| == n;
    var k: nat := if q >= p then q - p else q + n - p;
    ShowsAt(m, w, k, camera);
    forall j: nat, k: nat | j < n && k < n && Shows(m, w, j, camera) && Shows(m, w, k, camera)
      ensures j == k
    {
      ShowsAt(m, w, j, camera);
      ShowsAt(m, w, k, camera);
    }
    TurnsWalk(m, w, Forwards(n));
    ForwardsWalk(p, n, n);
    assert m.assign[w := m.assign[w]] == m.assign;
  }
}
