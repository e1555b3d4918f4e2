/** Registration seen closer up: `AddReaderSession` and `AddWriterSession` let go of their locks half way, so a
    camera and a writer that arrive together can run through each other, and other calls through either. Which
    of these interleavings leave the maps as whole calls would? */
module SplitPhase {
  import opened Common
  import opened AddressOrder
  import opened Assignment
  import opened ConnectionIndex

  // ---- The phases --------------------------------------------------------------------------

  /** The maps, what the camera's call remembers between its phases, and what the writer's call does: the
      predecessor whose record it found. (The source keeps a pointer to that record itself.) */
  datatype Maps = Maps(m: State, lists: Lists, isFirstReader: bool, predecessor: Option<Session>)

  /** The current sessions in address order, as a walk over the session map meets them. */
  function InOrder(sessions: map<Addr, Session>): seq<Session> {
    var keys := Sorted(sessions.Keys);
    seq(|keys|, i requires 0 <= i < |keys| => assert keys[i] in keys; sessions[keys[i]])
  }

  function RecordCamera(s: Maps, camera: Session): Maps {
    s.(m := s.m.(cameras := s.m.cameras[camera.addr := camera]), isFirstReader := s.m.cameras == map[])
  }

  /** The first camera lists everybody; any other starts an empty list, which hides whoever was recorded
      there. */
  function ListCamera(s: Maps, camera: Session): Maps {
    var a := camera.addr;
    if s.isFirstReader then
      s.(m := s.m.(assign := s.m.assign + AllAt(s.m.writers, a), unlisted := {}, last := s.m.last + 1),
         lists := s.lists[a := InOrder(s.m.writers)])
    else
      s.(m := s.m.(unlisted := s.m.unlisted + RecordedAt(s.m, a), last := s.m.last + 1), lists := s.lists[a := []])
  }

  function RecordWriter(s: Maps, writer: Session): Maps {
    var w := writer.addr;
    s.(m := s.m.(writers := s.m.writers[w := writer]),
       predecessor := if w in s.m.writers && w in s.m.assign then Some(s.m.writers[w]) else None)
  }

  /** `find` and `swap` in one list. */
  function Swapped(lists: Lists, camera: Addr, was: Session, now: Session): Lists {
    if camera !in lists then lists
    else
      var list := lists[camera];
      var i := Find(list, was);
      if i == |list| then lists else lists[camera := list[i := now]]
  }

  /** A writer without a record joins the first camera, if that has a list; one with a record takes its
      predecessor's place in the list the record names. */
  function ListWriter(s: Maps, writer: Session): Maps {
    var w, t := writer.addr, s.(m := s.m.(last := s.m.last + 1));
    match s.predecessor
    case Some(was) => if w in s.m.assign then t.(lists := Swapped(s.lists, s.m.assign[w], was, writer)) else t
    case None =>
      if s.m.cameras == map[] then t
      else
        var first := First(s.m.cameras.Keys);
        if first !in s.lists then t
        else t.(m := t.m.(assign := s.m.assign[w := first]), lists := s.lists[first := s.lists[first] + [writer]])
  }

  // ---- Interleavings -----------------------------------------------------------------------

  /** An interleaving of the two calls is fixed by where the camera's two phases fall among the writer's: before
      both, between them, or after both. */
  datatype Place = Before | Between | After

  function Rank(p: Place): nat {
    match p case Before => 0 case Between => 1 case After => 2
  }

  /** The camera's phases that fall at `here`. */
  function At(s: Maps, camera: Session, recorded: Place, listed: Place, here: Place): Maps {
    var t := if recorded == here then RecordCamera(s, camera) else s;
    if listed == here then ListCamera(t, camera) else t
  }

  function Interleaved(s: Maps, camera: Session, writer: Session, recorded: Place, listed: Place): Maps {
    var before := RecordWriter(At(s, camera, recorded, listed, Before), writer);
    var between := ListWriter(At(before, camera, recorded, listed, Between), writer);
    At(between, camera, recorded, listed, After)
  }

  /** The numbers are handed out in the order the calls finish. */
  function CameraSession(m: State, a: Addr, listed: Place): Session {
    Session(a, m.last + if listed == After then 2 else 1)
  }

  function WriterSession(m: State, w: Addr, listed: Place): Session {
    Session(w, m.last + if listed == After then 1 else 2)
  }

  function Together(m: State, lists: Lists, a: Addr, w: Addr, recorded: Place, listed: Place): Maps {
    Interleaved(Maps(m, lists, false, None), CameraSession(m, a, listed), WriterSession(m, w, listed), recorded, listed)
  }

  /** Nobody is missing from the lists or in them twice. */
  ghost predicate Consistent(m: State, lists: Lists) {
    Wf(m) && Indexes(lists, m)
  }

  /** The first camera lists everybody between the writer's phases, which then lists itself again; or a camera
      that now comes first in address order has no list yet when a new writer looks for one. */
  predicate Clashes(m: State, a: Addr, w: Addr, recorded: Place, listed: Place) {
    if m.cameras == map[] then listed == Between
    else
      && listed == After && recorded != After
      && a !in m.cameras && a < First(m.cameras.Keys) && w !in m.writers
  }

  // ---- One call after the other ------------------------------------------------------------

  lemma InOrderMembers(sessions: map<Addr, Session>, last: nat)
    requires Registered(sessions, last)
    ensures Distinct(InOrder(sessions))
    ensures forall x :: x in InOrder(sessions) <==> x.addr in sessions && sessions[x.addr] == x
  {
    hide Sorted;
    var keys, list := Sorted(sessions.Keys), InOrder(sessions);
    assert forall i :: 0 <= i < |keys| ==> keys[i] in keys && list[i].addr == keys[i];
    forall x: Session | x.addr in sessions && sessions[x.addr] == x
      ensures x in list
    {
      assert x.addr in keys;
      var i :| 0 <= i < |keys| && keys[i] == x.addr;
      assert list[i] == x;
    }
  }

  function CameraCall(s: Maps, camera: Session): Maps {
    ListCamera(RecordCamera(s, camera), camera)
  }

  function WriterCall(s: Maps, writer: Session): Maps {
    ListWriter(RecordWriter(s, writer), writer)
  }

  lemma FirstListIndexed(m: State, a: Addr)
    requires Wf(m) && m.cameras == map[]
    ensures Indexes(map[a := InOrder(m.writers)], WithReader(m, a))
  {
    hide Wf, Indexes, WithReader;
    FirstReaderIndexed(m, a, InOrder(m.writers));
  }

  lemma NoCameras(m: State, lists: Lists)
    requires Consistent(m, lists) && m.cameras == map[]
    ensures m.assign == map[] && lists == map[] && m.unlisted == {} && Registered(m.writers, m.last)
  {
  }

  lemma FirstCameraCall(s: Maps, a: Addr)
    requires Consistent(s.m, s.lists) && s.m.cameras == map[]
    ensures var t := CameraCall(s, Session(a, s.m.last + 1));
            t.m == WithReader(s.m, a) && Indexes(t.lists, t.m)
  {
    hide InOrder, Indexes, Wf, AllAt;
    NoCameras(s.m, s.lists);
    FirstListIndexed(s.m, a);
    assert map[] + AllAt(s.m.writers, a) == AllAt(s.m.writers, a);
    assert map[][a := InOrder(s.m.writers)] == map[a := InOrder(s.m.writers)];
  }

  lemma LaterCameraCall(s: Maps, a: Addr)
    requires Consistent(s.m, s.lists) && s.m.cameras != map[]
    ensures var t := CameraCall(s, Session(a, s.m.last + 1));
            t.m == WithReader(s.m, a) && Indexes(t.lists, t.m)
  {
    hide Indexes, InOrder;
    assert a !in s.m.cameras ==> RecordedAt(s.m, a) <= s.m.unlisted;
    LaterReaderIndexed(s.lists, s.m, a);
  }

  /** The two phases of a camera's call without interruption are the whole call. */
  lemma CameraCallIsWhole(s: Maps, a: Addr)
    requires Consistent(s.m, s.lists)
    ensures var t := CameraCall(s, Session(a, s.m.last + 1));
            t.m == WithReader(s.m, a) && Consistent(t.m, t.lists)
  {
    hide Wf, Indexes, CameraCall, WithReader;
    WithReaderWf(s.m, a);
    if s.m.cameras == map[] {
      FirstCameraCall(s, a);
    } else {
      LaterCameraCall(s, a);
    }
  }

  lemma ReturningIndexed(lists: Lists, m: State, w: Addr)
    requires Wf(m) && Indexes(lists, m) && w in m.assign && m.cameras != map[]
    ensures w in m.writers
    ensures Indexes(Swapped(lists, m.assign[w], m.writers[w], Session(w, m.last + 1)), WithWriter(m, w))
  {
    if w in m.unlisted {
      HiddenWriterIndexed(lists, m, w);
      if m.assign[w] in lists {
        FoundIffListed(lists, m, w);
      }
    } else {
      FoundIffListed(lists, m, w);
      ReturningWriterIndexed(lists, m, w, Find(lists[m.assign[w]], m.writers[w]));
    }
  }

  /** The two phases of a writer's call without interruption are the whole call. */
  lemma WriterCallIsWhole(s: Maps, w: Addr)
    requires Consistent(s.m, s.lists)
    ensures var t := WriterCall(s, Session(w, s.m.last + 1));
            t.m == WithWriter(s.m, w) && Consistent(t.m, t.lists)
  {
    hide First;
    var m := s.m;
    WithWriterWf(m, w);
    if m.cameras == map[] {
      HiddenWriterIndexed(s.lists, m, w);
    } else if w !in m.assign {
      NewWriterIndexed(s.lists, m, w, First(m.cameras.Keys));
    } else {
      ReturningIndexed(s.lists, m, w);
    }
  }

  // ---- Two calls at once -------------------------------------------------------------------

  /** While the camera is recorded and others are live, its listing and the writer's recording do not see each
      other: the camera's call comes first. */
  lemma CameraComesFirst(s: Maps, camera: Session, writer: Session, recorded: Place)
    requires s.m.cameras != map[] && recorded != After
    ensures Interleaved(s, camera, writer, recorded, Between) == Interleaved(s, camera, writer, Before, Before)
  {
    hide InOrder, ListWriter;
    assert RecordWriter(ListCamera(RecordCamera(s, camera), camera), writer) ==
           ListCamera(RecordWriter(RecordCamera(s, camera), writer), camera);
  }

  lemma ListsAreCameras(m: State, lists: Lists)
    requires Consistent(m, lists)
    ensures lists.Keys == m.cameras.Keys
    ensures m.assign.Keys == if m.cameras == map[] then {} else m.writers.Keys
  {
  }

  /** Recording a camera changes which comes first only if it does itself. */
  lemma FirstStays(m: State, lists: Lists, camera: Session)
    requires lists.Keys == m.cameras.Keys
    ensures var keys := m.cameras[camera.addr := camera].Keys;
            && keys != {}
            && (m.cameras == map[] ==> First(keys) == camera.addr && camera.addr !in lists)
            && (m.cameras != map[] && (camera.addr in m.cameras || First(m.cameras.Keys) < camera.addr) ==>
                  First(keys) == First(m.cameras.Keys))
            && (m.cameras != map[] && camera.addr !in m.cameras && camera.addr < First(m.cameras.Keys) ==>
                  First(keys) == camera.addr && camera.addr !in lists)
  {
    var keys := m.cameras[camera.addr := camera].Keys;
    assert keys == m.cameras.Keys + {camera.addr} && camera.addr in keys;
    assert First(keys) in keys;
    if m.cameras != map[] {
      assert First(m.cameras.Keys) in keys;
    }
  }

  /** A camera with no list yet does not show, unless it comes first in address order: the writer's call comes
      first. */
  lemma WriterComesFirst(m: State, lists: Lists, camera: Session, writer: Session, recorded: Place)
    requires Consistent(m, lists) && recorded != After && !Clashes(m, camera.addr, writer.addr, recorded, After)
    ensures Interleaved(Maps(m, lists, false, None), camera, writer, recorded, After) ==
            Interleaved(Maps(m, lists, false, None), camera, writer, After, After)
  {
    hide InOrder, ListCamera, Indexes, First;
    var s := Maps(m, lists, false, None);
    ListsAreCameras(m, lists);
    if writer.addr !in m.writers || m.cameras == map[] {
      FirstStays(m, lists, camera);
    }
    assert RecordWriter(RecordCamera(s, camera), writer) == RecordCamera(RecordWriter(s, writer), camera);
    assert ListWriter(RecordCamera(RecordWriter(s, writer), camera), writer) ==
           RecordCamera(ListWriter(RecordWriter(s, writer), writer), camera);
  }

  /** The state two whole calls leave, in the order in which they finish. */
  function InTurn(m: State, a: Addr, w: Addr, listed: Place): State {
    if listed == After then WithReader(WithWriter(m, w), a) else WithWriter(WithReader(m, a), w)
  }

  lemma CallsCount(m: State, a: Addr, w: Addr)
    ensures WithReader(m, a).last == m.last + 1 && WithWriter(m, w).last == m.last + 1
  {
  }

  lemma InTurnIsConsistent(m: State, lists: Lists, a: Addr, w: Addr, listed: Place)
    requires Consistent(m, lists)
    ensures var place := if listed == After then After else Before;
            var t := Interleaved(Maps(m, lists, false, None), CameraSession(m, a, listed), WriterSession(m, w, listed),
                                 place, place);
            t.m == InTurn(m, a, w, listed) && Consistent(t.m, t.lists)
  {
    hide Wf, Indexes, ListCamera, ListWriter, RecordCamera, RecordWriter, WithReader, WithWriter;
    var s := Maps(m, lists, false, None);
    CallsCount(m, a, w);
    if listed == After {
      WriterCallIsWhole(s, w);
      CameraCallIsWhole(WriterCall(s, WriterSession(m, w, listed)), a);
    } else {
      CameraCallIsWhole(s, a);
      WriterCallIsWhole(CameraCall(s, CameraSession(m, a, listed)), w);
    }
  }

  lemma ListedTwice(m: State, lists: Lists, list: seq<Session>, a: Addr, writer: Session)
    requires Distinct(list) && writer in list && a in lists && lists[a] == list + [writer]
    ensures multiset(lists[a])[writer] == 2 && !Indexes(lists, m)
  {
    OnceInMultiset(list, writer);
    assert multiset(list + [writer]) == multiset(list) + multiset{writer};
    var i :| 0 <= i < |list| && list[i] == writer;
    assert (list + [writer])[i] == (list + [writer])[|list|];
    assert Indexes(lists, m) ==> Enumerates(lists[a], m, a);
  }

  /** The first camera and a writer in between: the writer is in its list twice. */
  lemma FirstClash(m: State, lists: Lists, a: Addr, w: Addr, recorded: Place)
    requires Consistent(m, lists) && m.cameras == map[] && recorded != After
    ensures var t, writer := Together(m, lists, a, w, recorded, Between), WriterSession(m, w, Between);
            && a in t.lists && multiset(t.lists[a])[writer] == 2
            && !Consistent(t.m, t.lists)
  {
    hide InOrder, Wf, Indexes, AllAt;
    var camera, writer := CameraSession(m, a, Between), WriterSession(m, w, Between);
    var writers := m.writers[w := writer];
    NoCameras(m, lists);
    FirstStays(m, lists, camera);
    assert map[] + AllAt(writers, a) == AllAt(writers, a);
    var t := Together(m, lists, a, w, recorded, Between);
    assert t.lists[a] == InOrder(writers) + [writer];
    InOrderMembers(writers, m.last + 2) by { assert Registered(writers, m.last + 2); }
    ListedTwice(t.m, t.lists, InOrder(writers), a, writer);
  }

  /** A camera that comes first but has no list yet: the new writer is recorded nowhere. */
  lemma LaterClash(m: State, lists: Lists, a: Addr, w: Addr, recorded: Place)
    requires Consistent(m, lists) && m.cameras != map[] && Clashes(m, a, w, recorded, After)
    ensures var t := Together(m, lists, a, w, recorded, After);
            t.m.cameras != map[] && w in t.m.writers && w !in t.m.assign && !Consistent(t.m, t.lists)
  {
    hide InOrder, Indexes, First;
    ListsAreCameras(m, lists);
    FirstStays(m, lists, CameraSession(m, a, After));
  }

  lemma ClashMeans(m: State, a: Addr, w: Addr, recorded: Place, listed: Place)
    ensures Clashes(m, a, w, recorded, listed) && m.cameras == map[] ==> listed == Between
    ensures Clashes(m, a, w, recorded, listed) && m.cameras != map[] ==> listed == After && recorded != After
    ensures !Clashes(m, a, w, recorded, listed) && listed == Between ==> m.cameras != map[]
  {
  }

  /** A camera's and a writer's registration at once, from any consistent maps, either of them new or returning,
      in any interleaving of their phases: the maps end as after the two whole calls in the order in which they
      finish if the phases do not clash, and inconsistent if they do. */
  lemma InTurnUnlessClash(m: State, lists: Lists, a: Addr, w: Addr, recorded: Place, listed: Place)
    requires Consistent(m, lists) && Rank(recorded) <= Rank(listed)
    ensures var t := Together(m, lists, a, w, recorded, listed);
            if Clashes(m, a, w, recorded, listed) then !Consistent(t.m, t.lists)
            else t.m == InTurn(m, a, w, listed) && Consistent(t.m, t.lists)
  {
    hide Consistent, Interleaved, Clashes, InTurn;
    InTurnIsConsistent(m, lists, a, w, listed);
    var s, camera, writer := Maps(m, lists, false, None), CameraSession(m, a, listed), WriterSession(m, w, listed);
    if Clashes(m, a, w, recorded, listed) {
      ClashMeans(m, a, w, recorded, listed);
      if m.cameras == map[] {
        FirstClash(m, lists, a, w, recorded);
      } else {
        LaterClash(m, lists, a, w, recorded);
      }
    } else {
      ClashMeans(m, a, w, recorded, listed);
      if listed == Between {
        CameraComesFirst(s, camera, writer, recorded);
      } else if listed == After && recorded != After {
        WriterComesFirst(m, lists, camera, writer, recorded);
      }
    }
  }

  // ---- A returning writer and any other call -----------------------------------------------

  /** What a whole call does while a returning writer is between its phases. The lists still hold its
      predecessor, and nobody but a removal at its address reads its new session, which has no number yet, so
      such a removal finds itself superseded. */
  function Meanwhile(m: State, w: Addr, op: Op): State {
    if op.RemoveWriter? && op.session.addr == w then m else Apply(m, op)
  }

  /** The call erases the record that the writer's call has kept a pointer to. */
  predicate Dangles(m: State, op: Op) {
    op.Clear? || (op.RemoveReader? && IsCurrent(m.cameras, op.session) && |m.cameras| == 1)
  }

  /** The pointer kept across the unlocked stretch goes bad exactly if everything is cleared meanwhile, or the
      last camera leaves. */
  lemma RecordIsErasedIff(m: State, w: Addr, op: Op)
    requires Wf(m) && w in m.assign && op != AddWriter(w)
    ensures w !in Meanwhile(m, w, op).assign <==> Dangles(m, op)
  {
    hide First, Next;
  }

  lemma WriterUntouched(m: State, w: Addr, op: Op)
    requires Wf(m) && w in m.assign && op != AddWriter(w) && !Dangles(m, op)
    ensures w in Meanwhile(m, w, op).writers && Meanwhile(m, w, op).writers[w] == m.writers[w]
  {
    hide First, Next;
  }

  lemma CamerasFor(m: State, w: Addr)
    requires Wf(m) && w in m.assign
    ensures m.cameras != map[]
  {
  }

  /** Otherwise the writer takes its predecessor's place wherever that has moved to, and the maps end as if the
      other call had come first. */
  lemma ReturnsAround(m: State, w: Addr, op: Op, lists: Lists)
    requires Wf(m) && w in m.assign && op != AddWriter(w) && !Dangles(m, op)
    requires Indexes(lists, Meanwhile(m, w, op))
    ensures var n := Meanwhile(m, w, op);
            && w in n.assign
            && Consistent(WithWriter(n, w), Swapped(lists, n.assign[w], m.writers[w], Session(w, n.last + 1)))
  {
    hide Indexes, Swapped, Apply;
    ApplyWf(m, op);
    RecordIsErasedIff(m, w, op);
    WriterUntouched(m, w, op);
    var n := Meanwhile(m, w, op);
    WithWriterWf(n, w);
    CamerasFor(n, w);
    ReturningIndexed(lists, n, w);
  }
}
