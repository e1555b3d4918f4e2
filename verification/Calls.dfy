/** What each call on the connection manager does, said of the session maps and of positions in address order,
    and in no terms of how `Assignment` computes it. */
module Calls {
  import opened AddressOrder
  import opened Cyclic
  import opened Assignment
  import opened Rotation

  /** Camera number `p` in address order. */
  function CameraAt(m: State, p: nat): Addr
    requires p < |m.cameras|
  {
    assert |m.cameras.Keys| == |m.cameras|;
    Sorted(m.cameras.Keys)[p]
  }

  function PlaceOf(m: State, camera: Addr): (p: nat)
    requires camera in m.cameras
    ensures p < |m.cameras| && CameraAt(m, p) == camera
  {
    assert |m.cameras.Keys| == |m.cameras|;
    Index(m.cameras.Keys, camera)
  }

  /** The camera one place on, round the ring. */
  function After(m: State, camera: Addr): Addr
    requires camera in m.cameras
  {
    CameraAt(m, (PlaceOf(m, camera) + 1) % |m.cameras|)
  }

  lemma NextIsAfter(m: State, camera: Addr)
    requires camera in m.cameras
    ensures Next(m.cameras.Keys, camera) == After(m, camera)
  {
    hide Sorted, Next;
    assert |m.cameras.Keys| == |m.cameras|;
    var p := PlaceOf(m, camera);
    NextAround(m.cameras.Keys, p);
    WithinTwoRounds(p + 1, |m.cameras|);
    WithinTwoRounds(0, |m.cameras|);
  }

  lemma FirstIsZero(m: State)
    requires m.cameras != map[]
    ensures |m.cameras| > 0 && First(m.cameras.Keys) == CameraAt(m, 0)
  {
    assert |m.cameras.Keys| == |m.cameras|;
    SortedFirst(m.cameras.Keys);
  }

  /** A camera registers: it is live under the next number; the first one gets every writer, any later one
      moves nobody, and one that was live loses sight of those recorded there. */
  lemma AddReaderDoes(m: State, a: Addr)
    requires Wf(m)
    ensures var n := Apply(m, AddReader(a));
            && n.cameras == m.cameras[a := Session(a, m.last + 1)] && n.writers == m.writers && n.last == m.last + 1
            && (m.cameras == map[] ==>
                  n.assign.Keys == m.writers.Keys && n.unlisted == {} && forall w :: w in n.assign ==> n.assign[w] == a)
            && (m.cameras != map[] ==>
                  && n.assign == m.assign
                  && forall w :: w in n.unlisted <==>
                                 w in m.unlisted || (a in m.cameras && w in m.assign && m.assign[w] == a))
  {
  }

  lemma OnlyKey(keys: set<Addr>, a: Addr)
    requires |keys| == 1 && a in keys
    ensures keys == {a}
  {
    assert |keys - {a}| == 0;
  }

  /** A camera leaves, if the session is its current one: the last one takes all assignments along, any other
      passes those it lists to the camera one place on. */
  lemma RemoveReaderDoes(m: State, s: Session)
    requires Wf(m)
    ensures var n, current := Apply(m, RemoveReader(s)), s.addr in m.cameras && m.cameras[s.addr].id == s.id;
            && n.writers == m.writers && n.last == m.last
            && (!current ==> n == m)
            && (current ==> n.cameras == m.cameras - {s.addr})
            && (current && |m.cameras| == 1 ==> n.cameras == map[] && n.assign == map[] && n.unlisted == {})
            && (current && |m.cameras| > 1 ==>
                  && n.assign.Keys == m.assign.Keys && n.unlisted == m.unlisted
                  && forall w :: w in m.assign ==>
                       n.assign[w] ==
                       if m.assign[w] == s.addr && w !in m.unlisted then After(m, s.addr) else m.assign[w])
  {
    hide Next, After, Sorted;
    if s.addr in m.cameras {
      NextIsAfter(m, s.addr);
      assert m.cameras.Keys != {};
      if |m.cameras| == 1 {
        assert |m.cameras.Keys| == 1;
        OnlyKey(m.cameras.Keys, s.addr);
        assert m.cameras - {s.addr} == map[];
      }
    }
  }

  /** A writer registers: it is live under the next number; a new one watches the first camera if there is
      one, a returning one keeps what it had. */
  lemma AddWriterDoes(m: State, w: Addr)
    requires Wf(m)
    ensures var n := Apply(m, AddWriter(w));
            && n.writers == m.writers[w := Session(w, m.last + 1)] && n.cameras == m.cameras && n.last == m.last + 1
            && n.unlisted == m.unlisted
            && (forall v :: v in m.assign ==> v in n.assign && n.assign[v] == m.assign[v])
            && (forall v :: v in n.assign ==> v in m.assign || v == w)
            && (w !in m.assign ==>
                  if m.cameras == map[] then w !in n.assign else w in n.assign && n.assign[w] == CameraAt(m, 0))
  {
    hide Sorted, First, CameraAt;
    if m.cameras != map[] {
      FirstIsZero(m);
    }
  }

  /** A writer leaves, if the session is its current one, and nobody else is touched. */
  lemma RemoveWriterDoes(m: State, s: Session)
    requires Wf(m)
    ensures var n, current := Apply(m, RemoveWriter(s)), s.addr in m.writers && m.writers[s.addr].id == s.id;
            && n.cameras == m.cameras && n.last == m.last
            && (!current ==> n == m)
            && (current ==>
                  && n.writers == m.writers - {s.addr} && n.assign == m.assign - {s.addr}
                  && n.unlisted == m.unlisted - {s.addr})
  {
  }

  lemma OnlyCamera(m: State, camera: Addr)
    requires camera in m.cameras && |m.cameras| == 1
    ensures After(m, camera) == camera == CameraAt(m, 0)
  {
    hide Sorted;
    assert PlaceOf(m, camera) == 0;
    WithinTwoRounds(1, 1);
  }

  /** A visible writer of a live camera turns to the camera one place on, or to the first. */
  lemma TurnsDo(m: State, w: Addr)
    requires Wf(m)
    ensures var visible := w in m.assign && m.assign[w] in m.cameras && w !in m.unlisted;
            && (visible ==> Apply(m, Rotate(w)) == m.(assign := m.assign[w := After(m, m.assign[w])]))
            && (visible ==> Apply(m, Reset(w)) == m.(assign := m.assign[w := CameraAt(m, 0)]))
            && (!visible ==> Apply(m, Rotate(w)) == m && Apply(m, Reset(w)) == m)
  {
    hide Sorted, Next, First, After, CameraAt;
    if w in m.assign && m.assign[w] in m.cameras {
      NextIsAfter(m, m.assign[w]);
      FirstIsZero(m);
      if |m.cameras| == 1 {
        OnlyCamera(m, m.assign[w]);
        assert m.assign[w := m.assign[w]] == m.assign;
      }
    }
  }

  /** Everybody recorded is at one camera, and all else is as it was. */
  ghost predicate AllWatch(m: State, n: State, camera: Addr) {
    && n.cameras == m.cameras && n.writers == m.writers && n.unlisted == m.unlisted && n.last == m.last
    && n.assign.Keys == m.assign.Keys && forall w :: w in n.assign ==> n.assign[w] == camera
  }

  /** Everybody goes to a live camera, or nobody moves. */
  lemma PointAtDoes(m: State, a: Addr)
    ensures if a in m.cameras then AllWatch(m, Apply(m, PointAt(a)), a) else Apply(m, PointAt(a)) == m
  {
  }

  /** The camera of the first writer in address order, which the source takes everybody to be watching. */
  function Leading(m: State): Addr
    requires m.assign != map[]
  {
    assert m.assign.Keys != {};
    m.assign[Sorted(m.assign.Keys)[0]]
  }

  /** Everybody goes to the camera one place on from the first writer's, or nobody moves. */
  lemma RotateAllDoes(m: State)
    ensures var n := Apply(m, RotateAll);
            if m.assign != map[] && |m.cameras| > 1 && Leading(m) in m.cameras
            then AllWatch(m, n, After(m, Leading(m)))
            else n == m
    ensures CanRotateAll(m) <==> m.assign != map[] && |m.cameras| > 1 && Leading(m) in m.cameras
  {
    hide Sorted, Next, First, After;
    if m.assign != map[] {
      assert m.assign.Keys != {};
      SortedFirst(m.assign.Keys);
      if Leading(m) in m.cameras {
        NextIsAfter(m, Leading(m));
      }
    }
  }

  lemma ClearDoes(m: State)
    ensures var n := Apply(m, Clear);
            && n.cameras == map[] && n.writers == map[] && n.assign == map[] && n.unlisted == {} && n.last == m.last
  {
  }

  // ---- Touring with everybody --------------------------------------------------------------

  function AllTurned(m: State, k: nat): State {
    if k == 0 then m else Apply(AllTurned(m, k - 1), RotateAll)
  }

  lemma LeadsAt(m: State, n: State, camera: Addr)
    requires AllWatch(m, n, camera) && m.assign != map[]
    ensures n.assign != map[] && Leading(n) == camera
  {
    assert n.assign.Keys != {} && Sorted(n.assign.Keys)[0] in Sorted(n.assign.Keys);
  }

  lemma SamePlaces(m: State, n: State)
    requires n.cameras == m.cameras
    ensures forall camera :: camera in m.cameras ==> After(n, camera) == After(m, camera)
  {
  }

  lemma OnePlaceOn(m: State, p: nat)
    requires p < |m.cameras|
    ensures CameraAt(m, p) in m.cameras && After(m, CameraAt(m, p)) == CameraAt(m, Around(p, |m.cameras|))
  {
    hide Sorted;
    var keys := m.cameras.Keys;
    assert |keys| == |m.cameras| && Sorted(keys)[p] in Sorted(keys);
    assert PlaceOf(m, CameraAt(m, p)) == p;
    AroundIsMod(p, |keys|);
    WithinTwoRounds(p, |keys|);
  }

  /** Once everybody is together they stay together, one place on. */
  lemma TurnTogether(m: State, n: State, p: nat)
    requires m.assign != map[] && |m.cameras| > 1 && p < |m.cameras| && AllWatch(m, n, CameraAt(m, p))
    ensures AllWatch(m, Apply(n, RotateAll), CameraAt(m, Around(p, |m.cameras|)))
  {
    hide Sorted, Apply, CameraAt, After, Leading;
    LeadsAt(m, n, CameraAt(m, p));
    SamePlaces(m, n);
    OnePlaceOn(m, p);
    RotateAllDoes(n);
  }

  /** After `k` rotations of everybody, one or more, all are `k` places on from where the first writer was. */
  lemma {:induction false} AllTurnedAt(m: State, k: nat)
    requires m.assign != map[] && |m.cameras| > 1 && Leading(m) in m.cameras && k > 0
    ensures AllWatch(m, AllTurned(m, k), CameraAt(m, (PlaceOf(m, Leading(m)) + k) % |m.cameras|))
  {
    hide Sorted, Apply, CameraAt, PlaceOf, AllWatch, Leading, Around;
    var p, n := PlaceOf(m, Leading(m)), |m.cameras|;
    if k == 1 {
      RotateAllDoes(m);
      assert AllTurned(m, 1) == Apply(AllTurned(m, 0), RotateAll) == Apply(m, RotateAll);
    } else {
      AllTurnedAt(m, k - 1);
      AroundIsMod(p + (k - 1), n);
      TurnTogether(m, AllTurned(m, k - 1), (p + (k - 1)) % n);
    }
  }

  lemma PlaceAt(m: State, p: nat)
    requires p < |m.cameras|
    ensures CameraAt(m, p) in m.cameras && PlaceOf(m, CameraAt(m, p)) == p
  {
    hide Sorted;
    var keys := m.cameras.Keys;
    assert |keys| == |m.cameras| && Sorted(keys)[p] in Sorted(keys);
  }

  lemma SomebodyWatches(m: State, n: State, at: Addr, camera: Addr)
    requires AllWatch(m, n, at) && m.assign != map[]
    ensures AllWatch(m, n, camera) <==> at == camera
  {
    var w :| w in m.assign;
    assert w in n.assign;
  }

  lemma ShownAt(m: State, k: nat, camera: Addr)
    requires m.assign != map[] && |m.cameras| > 1 && Leading(m) in m.cameras && camera in m.cameras
    requires 1 <= k <= |m.cameras|
    ensures var p, n := PlaceOf(m, Leading(m)) + k, |m.cameras|;
            AllWatch(m, AllTurned(m, k), camera) <==> PlaceOf(m, camera) == if p < n then p else p - n
  {
    hide AllTurned, Leading, Sorted;
    var p, n := PlaceOf(m, Leading(m)), |m.cameras|;
    AllTurnedAt(m, k);
    WithinTwoRounds(p + k, n);
    var at := CameraAt(m, (p + k) % n);
    SomebodyWatches(m, AllTurned(m, k), at, camera);
    assert |m.cameras.Keys| == n;
    assert PlaceOf(m, camera) == (p + k) % n ==> at == camera;
    PlaceAt(m, (p + k) % n);
  }

  /** A full tour of everybody: with n cameras, each is shown to all after exactly one of 1 .. n rotations, and
      the n-th ends with everybody where the first writer was. */
  lemma EverybodyTours(m: State, camera: Addr)
    requires m.assign != map[] && |m.cameras| > 1 && Leading(m) in m.cameras && camera in m.cameras
    ensures exists k: nat :: 1 <= k <= |m.cameras| && AllWatch(m, AllTurned(m, k), camera)
    ensures forall j: nat, k: nat ::
              (1 <= j <= |m.cameras| && 1 <= k <= |m.cameras| && AllWatch(m, AllTurned(m, j), camera) &&
               AllWatch(m, AllTurned(m, k), camera)) ==> j == k
    ensures AllWatch(m, AllTurned(m, |m.cameras|), Leading(m))
  {
    hide AllTurned, AllWatch, CameraAt, PlaceOf, Leading, Sorted;
    var p, q, n := PlaceOf(m, Leading(m)), PlaceOf(m, camera), |m.cameras|;
    var k: nat := if q > p then q - p else q + n - p;
    ShownAt(m, k, camera);
    forall j: nat, k: nat | 1 <= j <= n && 1 <= k <= n && AllWatch(m, AllTurned(m, j), camera) &&
                            AllWatch(m, AllTurned(m, k), camera)
      ensures j == k
    {
      ShownAt(m, j, camera);
      ShownAt(m, k, camera);
    }
    ShownAt(m, n, Leading(m));
  }
}
