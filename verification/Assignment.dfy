/** What the connection manager means: a set of live cameras, a set of live writers, and one function from
    writers to cameras. There are no lists of writers here. `unlisted` names the writers that a
    re-registered camera has lost sight of; it is empty in every run without such an event. */
module Assignment {
  import opened AddressOrder

  /** A registered session: where it comes from, and the number it was given. */
  datatype Session = Session(addr: Addr, id: nat)

  datatype State = State(
    cameras: map<Addr, Session>, writers: map<Addr, Session>,
    assign: map<Addr, Addr>, unlisted: set<Addr>, last: nat)

  const EMPTY: State := State(map[], map[], map[], {}, 0)

  datatype Op =
    | AddReader(addr: Addr)
    | RemoveReader(session: Session)
    | AddWriter(addr: Addr)
    | RemoveWriter(session: Session)
    | Rotate(writer: Addr)
    | Reset(writer: Addr)
    | RotateAll
    | PointAt(camera: Addr)
    | Clear

  function Point(assign: map<Addr, Addr>, camera: Addr): map<Addr, Addr> {
    map w | w in assign :: camera
  }

  /** Every writer at one camera. */
  function AllAt(writers: map<Addr, Session>, camera: Addr): map<Addr, Addr> {
    map w | w in writers :: camera
  }

  /** The writers recorded at a camera. */
  function RecordedAt(m: State, camera: Addr): set<Addr> {
    set w | w in m.assign && m.assign[w] == camera
  }

  predicate Reregisters(m: State, op: Op) {
    op.AddReader? && op.addr in m.cameras
  }

  /** A writer that `Rotate` and `Reset` can move. */
  predicate Movable(m: State, w: Addr) {
    w in m.assign && m.assign[w] in m.cameras && |m.cameras| > 1 && w !in m.unlisted
  }

  predicate CanRotateAll(m: State) {
    m.assign != map[] && |m.cameras| > 1 && m.assign[First(m.assign.Keys)] in m.cameras
  }

  predicate IsCurrent(sessions: map<Addr, Session>, s: Session) {
    s.addr in sessions && sessions[s.addr].id == s.id
  }

  /** The first camera gets every writer; a later one starts with none. */
  function WithReader(m: State, a: Addr): State {
    var m' := m.(cameras := m.cameras[a := Session(a, m.last + 1)], last := m.last + 1);
    if m.cameras == map[] then m'.(assign := AllAt(m.writers, a), unlisted := {})
    else if a in m.cameras then m'.(unlisted := m.unlisted + RecordedAt(m, a))
    else m'
  }

  /** A camera's listed writers pass to the next camera. */
  function WithoutReader(m: State, s: Session): State {
    if !IsCurrent(m.cameras, s) then m
    else if |m.cameras| == 1 then m.(cameras := map[], assign := map[], unlisted := {})
    else
      var next := Next(m.cameras.Keys, s.addr);
      m.(cameras := m.cameras - {s.addr},
         assign := map w | w in m.assign ::
           if m.assign[w] == s.addr && w !in m.unlisted then next else m.assign[w])
  }

  /** A new writer watches the first camera; a returning one keeps the camera it had. */
  function WithWriter(m: State, w: Addr): State {
    var m' := m.(writers := m.writers[w := Session(w, m.last + 1)], last := m.last + 1);
    if w in m.assign || m.cameras == map[] then m'
    else m'.(assign := m.assign[w := First(m.cameras.Keys)])
  }

  function WithoutWriter(m: State, s: Session): State {
    if !IsCurrent(m.writers, s) then m
    else m.(writers := m.writers - {s.addr}, assign := m.assign - {s.addr}, unlisted := m.unlisted - {s.addr})
  }

  function Rotated(m: State, w: Addr): State {
    if Movable(m, w) then m.(assign := m.assign[w := Next(m.cameras.Keys, m.assign[w])]) else m
  }

  function WithReset(m: State, w: Addr): State {
    if Movable(m, w) then m.(assign := m.assign[w := First(m.cameras.Keys)]) else m
  }

  function PointedAt(m: State, a: Addr): State {
    if a in m.cameras then m.(assign := Point(m.assign, a)) else m
  }

  /** Everybody moves to the camera after the first writer's. */
  function AllRotated(m: State): State {
    if CanRotateAll(m) then PointedAt(m, Next(m.cameras.Keys, m.assign[First(m.assign.Keys)])) else m
  }

  function Apply(m: State, op: Op): State {
    match op
    case AddReader(a) => WithReader(m, a)
    case RemoveReader(s) => WithoutReader(m, s)
    case AddWriter(w) => WithWriter(m, w)
    case RemoveWriter(s) => WithoutWriter(m, s)
    case Rotate(w) => Rotated(m, w)
    case Reset(w) => WithReset(m, w)
    case RotateAll => AllRotated(m)
    case PointAt(a) => PointedAt(m, a)
    case Clear => EMPTY.(last := m.last)
  }

  // ---- The invariant -----------------------------------------------------------------------

  ghost predicate Registered(sessions: map<Addr, Session>, last: nat) {
    forall a :: a in sessions ==> sessions[a].addr == a && 0 < sessions[a].id <= last
  }

  /** Every writer has a camera whenever there is one, and a listed writer's camera is live. */
  ghost predicate Wf(m: State) {
    && Registered(m.cameras, m.last) && Registered(m.writers, m.last)
    && m.assign.Keys == (if m.cameras == map[] then {} else m.writers.Keys)
    && m.unlisted <= m.assign.Keys
    && forall w :: w in m.assign && w !in m.unlisted ==> m.assign[w] in m.cameras
  }

  lemma WithReaderWf(m: State, a: Addr)
    requires Wf(m)
    ensures Wf(WithReader(m, a))
  {
    var n := WithReader(m, a);
    assert a in n.cameras && n.cameras != map[];
    assert m.cameras == map[] ==> n.assign.Keys == m.writers.Keys;
  }

  lemma WithoutReaderWf(m: State, s: Session)
    requires Wf(m)
    ensures Wf(WithoutReader(m, s))
  {
    if IsCurrent(m.cameras, s) && |m.cameras| != 1 {
      var m' := WithoutReader(m, s);
      assert |m.cameras.Keys| != 1;
      NextMoves(m.cameras.Keys, s.addr);
      assert Next(m.cameras.Keys, s.addr) in m'.cameras;
      assert m'.assign.Keys == m.assign.Keys;
    }
  }

  lemma WithWriterWf(m: State, w: Addr)
    requires Wf(m)
    ensures Wf(WithWriter(m, w))
  {
    var m' := WithWriter(m, w);
    assert m.cameras != map[] ==> m'.assign.Keys == m.assign.Keys + {w};
    assert m'.writers.Keys == m.writers.Keys + {w};
  }

  lemma WithoutWriterWf(m: State, s: Session)
    requires Wf(m)
    ensures Wf(WithoutWriter(m, s))
  {
    assert IsCurrent(m.writers, s) ==> WithoutWriter(m, s).assign.Keys == m.assign.Keys - {s.addr};
  }

  lemma PointedAtWf(m: State, a: Addr)
    requires Wf(m)
    ensures Wf(PointedAt(m, a))
  {
    assert Point(m.assign, a).Keys == m.assign.Keys;
  }

  lemma ApplyWf(m: State, op: Op)
    requires Wf(m)
    ensures Wf(Apply(m, op))
  {
    hide WithReader, WithoutReader, WithWriter, WithoutWriter, PointedAt;
    match op
    case AddReader(a) => WithReaderWf(m, a);
    case RemoveReader(s) => WithoutReaderWf(m, s);
    case AddWriter(w) => WithWriterWf(m, w);
    case RemoveWriter(s) => WithoutWriterWf(m, s);
    case PointAt(a) => PointedAtWf(m, a);
    case RotateAll =>
      if CanRotateAll(m) {
        PointedAtWf(m, Next(m.cameras.Keys, m.assign[First(m.assign.Keys)]));
      }
    case _ =>
  }

  // ---- Runs --------------------------------------------------------------------------------

  function Run(m: State, ops: seq<Op>): State
    decreases |ops|
  {
    if ops == [] then m else Run(Apply(m, ops[0]), ops[1..])
  }

  /** No call of the run registers an address whose camera is still live. */
  predicate NeverReregisters(m: State, ops: seq<Op>)
    decreases |ops|
  {
    ops == [] || (!Reregisters(m, ops[0]) && NeverReregisters(Apply(m, ops[0]), ops[1..]))
  }

  lemma {:induction false} RunWf(m: State, ops: seq<Op>)
    requires Wf(m)
    ensures Wf(Run(m, ops))
    decreases |ops|
  {
    hide Apply, Wf;
    if ops == [] {
    } else {
      ApplyWf(m, ops[0]);
      RunWf(Apply(m, ops[0]), ops[1..]);
    }
  }

  /** Only a re-registration hides a writer that was listed, and it hides exactly the writers recorded at
      the camera it re-registers. A writer hidden earlier stays hidden until it leaves or the last camera
      does. */
  lemma UnlistedBy(m: State, op: Op)
    requires Wf(m)
    ensures !Reregisters(m, op) ==> Apply(m, op).unlisted <= m.unlisted
    ensures Reregisters(m, op) ==> Apply(m, op).unlisted == m.unlisted + RecordedAt(m, op.addr)
    ensures forall w :: w in m.unlisted && w in Apply(m, op).assign ==> w in Apply(m, op).unlisted
  {
  }

  /** No call of the run hides a writer that was listed at its start, unless it re-registers a camera. */
  lemma {:induction false} ListedStaysListed(m: State, ops: seq<Op>)
    requires Wf(m) && NeverReregisters(m, ops)
    ensures Wf(Run(m, ops)) && Run(m, ops).unlisted <= m.unlisted
    decreases |ops|
  {
    hide Apply, Wf;
    if ops == [] {
    } else {
      ApplyWf(m, ops[0]);
      UnlistedBy(m, ops[0]);
      ListedStaysListed(Apply(m, ops[0]), ops[1..]);
    }
  }

  /** The call re-registers a camera somebody is watching. */
  predicate Hides(m: State, op: Op) {
    Reregisters(m, op) && RecordedAt(m, op.addr) != {}
  }

  predicate NeverHides(m: State, ops: seq<Op>)
    decreases |ops|
  {
    ops == [] || (!Hides(m, ops[0]) && NeverHides(Apply(m, ops[0]), ops[1..]))
  }

  /** Nothing is hidden at any point of the run. */
  predicate AlwaysConsistent(m: State, ops: seq<Op>)
    decreases |ops|
  {
    m.unlisted == {} && (ops == [] || AlwaysConsistent(Apply(m, ops[0]), ops[1..]))
  }

  /** The two maps agree throughout a run exactly when no call of it re-registers a camera that somebody is
      watching. */
  lemma {:induction false} ConsistentExactlyWhen(m: State, ops: seq<Op>)
    requires Wf(m) && m.unlisted == {}
    ensures AlwaysConsistent(m, ops) <==> NeverHides(m, ops)
    decreases |ops|
  {
    hide Apply, Wf, RecordedAt;
    if ops == [] {
    } else {
      ApplyWf(m, ops[0]);
      UnlistedBy(m, ops[0]);
      if !Hides(m, ops[0]) {
        ConsistentExactlyWhen(Apply(m, ops[0]), ops[1..]);
      }
    }
  }

  lemma {:induction false} AlwaysConsistentEnds(m: State, ops: seq<Op>)
    requires AlwaysConsistent(m, ops)
    ensures Run(m, ops).unlisted == {}
    decreases |ops|
  {
    if ops == [] {
    } else {
      AlwaysConsistentEnds(Apply(m, ops[0]), ops[1..]);
    }
  }

  /** Index refinement over whole runs: unless a call re-registers a camera that somebody is watching, nothing
      is ever hidden, every writer has a live camera as soon as one exists, and no writer has any other. */
  lemma StrongInvariant(ops: seq<Op>)
    requires NeverHides(EMPTY, ops)
    ensures var n := Run(EMPTY, ops);
            && Wf(n) && n.unlisted == {}
            && (n.cameras != map[] ==> n.assign.Keys == n.writers.Keys)
            && (forall w :: w in n.assign ==> w in n.writers && n.assign[w] in n.cameras)
  {
    hide Run, NeverHides, AlwaysConsistent;
    ConsistentExactlyWhen(EMPTY, ops);
    AlwaysConsistentEnds(EMPTY, ops);
    RunWf(EMPTY, ops);
  }

  /** A reachable state in which a camera reconnects under a watching headset and the headset is lost: it is
      still recorded at the camera, but no list holds it. */
  lemma ReregistrationLosesAWriter()
    ensures var m := Run(EMPTY, [AddReader(7), AddWriter(1), AddReader(7)]);
            m.unlisted == {1} && m.assign == map[1 := 7] && !Movable(m, 1)
  {
    var m1 := Apply(EMPTY, AddReader(7));
    var m2 := Apply(m1, AddWriter(1));
    var m3 := Apply(m2, AddReader(7));
    assert m1.cameras == map[7 := Session(7, 1)] && m1.assign == map[];
    assert m1.cameras.Keys == {7} && First({7}) == 7;
    assert m2.assign == map[1 := 7];
    assert RecordedAt(m2, 7) == {1};
    var ops := [AddReader(7), AddWriter(1), AddReader(7)];
    assert ops[1..] == [AddWriter(1), AddReader(7)] && ops[1..][1..] == [AddReader(7)];
    assert Run(EMPTY, ops) == Run(m1, ops[1..]) == Run(m2, ops[1..][1..]) == Run(m3, ops[1..][1..][1..]);
  }

  // ---- Late closes -------------------------------------------------------------------------

  /** A session that was registered and is no longer the current one at its address. */
  ghost predicate Superseded(sessions: map<Addr, Session>, last: nat, s: Session) {
    s.id <= last && !IsCurrent(sessions, s)
  }

  lemma SupersededStays(m: State, op: Op, s: Session)
    requires Wf(m)
    ensures Superseded(m.cameras, m.last, s) ==> Superseded(Apply(m, op).cameras, Apply(m, op).last, s)
    ensures Superseded(m.writers, m.last, s) ==> Superseded(Apply(m, op).writers, Apply(m, op).last, s)
  {
    hide RecordedAt, Point, Next, First, Movable;
  }

  lemma StaleRemoval(m: State, s: Session)
    ensures !IsCurrent(m.cameras, s) ==> Apply(m, RemoveReader(s)) == m
    ensures !IsCurrent(m.writers, s) ==> Apply(m, RemoveWriter(s)) == m
  {
  }

  /** Late closes are harmless: once superseded or cleared, a session can never be current again, so its
      remove call changes nothing at any later point of any run. */
  lemma {:induction false} LateCloseIsHarmless(m: State, ops: seq<Op>, s: Session)
    requires Wf(m)
    ensures Superseded(m.cameras, m.last, s) ==> Apply(Run(m, ops), RemoveReader(s)) == Run(m, ops)
    ensures Superseded(m.writers, m.last, s) ==> Apply(Run(m, ops), RemoveWriter(s)) == Run(m, ops)
    decreases |ops|
  {
    hide Apply, Wf;
    if ops == [] {
      StaleRemoval(m, s);
    } else {
      ApplyWf(m, ops[0]);
      SupersededStays(m, ops[0], s);
      LateCloseIsHarmless(Apply(m, ops[0]), ops[1..], s);
    }
  }

  /** Registering again at the same address, or clearing, is what supersedes a current session; the session
      that replaced it stays registered through the late close. */
  lemma NewcomerSupersedes(m: State, s: Session)
    requires Wf(m)
    ensures IsCurrent(m.cameras, s) ==>
              Superseded(Apply(m, AddReader(s.addr)).cameras, m.last + 1, s) && Superseded(map[], m.last, s)
    ensures IsCurrent(m.writers, s) ==>
              Superseded(Apply(m, AddWriter(s.addr)).writers, m.last + 1, s) && Superseded(map[], m.last, s)
  {
  }
}
