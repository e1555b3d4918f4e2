/** The connection manager itself: four maps edited in place. Every call is proved to act as one update of
    the assignment function and to keep the inverted index exact. */
module ConnectionManager {
  import opened Common
  import opened AddressOrder
  import opened Assignment
  import opened ConnectionIndex

  /** Every writer recorded at one camera, and listed in address order. */
  method AttachAll(writers: map<Addr, Session>, assign: map<Addr, Addr>, addr: Addr)
    returns (recorded: map<Addr, Addr>, connections: seq<Session>)
    requires assign == map[]
    ensures recorded == AllAt(writers, addr)
    ensures |connections| == |writers.Keys|
    ensures forall i :: 0 <= i < |connections| ==> connections[i] == writers[Sorted(writers.Keys)[i]]
  {
    hide Sorted;
    var keys := Sorted(writers.Keys);
    recorded, connections := assign, [];
    for i := 0 to |keys|
      invariant |connections| == i
      invariant forall j :: 0 <= j < i ==> keys[j] in writers && connections[j] == writers[keys[j]]
      invariant forall j :: 0 <= j < i ==> keys[j] in recorded
      invariant forall w :: w in recorded ==> w in writers && recorded[w] == addr
    {
      assert keys[i] in keys;
      recorded := recorded[keys[i] := addr];
      connections := connections + [writers[keys[i]]];
    }
    forall w | w in writers
      ensures w in recorded
    {
      assert w in keys;
    }
  }

  lemma NoReaders(lists: Lists, m: State)
    requires Wf(m) && Indexes(lists, m) && m.cameras == map[]
    ensures m.assign == map[] && lists == map[]
  {
  }

  /** The loop that drains a dead camera's list into its replacement's, recording each writer as it goes. */
  method Drain(lists: Lists, assign: map<Addr, Addr>, dead: Addr, replacement: Addr)
    returns (lists': Lists, assign': map<Addr, Addr>)
    requires dead in lists && replacement in lists && dead != replacement
    ensures lists' == lists[replacement := lists[replacement] + lists[dead]][dead := []]
    ensures assign' == Redirect(assign, lists[dead], replacement)
  {
    lists', assign' := lists, assign;
    ghost var all, i := lists[dead], 0;
    assert lists[replacement] + all[..0] == lists[replacement] && all[0..] == all;
    while lists'[dead] != []
      invariant 0 <= i <= |all|
      invariant lists' == lists[replacement := lists[replacement] + all[..i]][dead := all[i..]]
      invariant Redirect(assign', all[i..], replacement) == Redirect(assign, all, replacement)
      decreases |all| - i
    {
      var writer := lists'[dead][0];
      assert all[..i + 1] == all[..i] + [writer] && all[i..][1..] == all[i + 1..];
      assert lists[replacement] + all[..i] + [writer] == lists[replacement] + all[..i + 1];
      lists' := lists'[replacement := lists'[replacement] + [writer]];
      assign' := assign'[writer.addr := replacement];
      lists' := lists'[dead := lists'[dead][1..]];
      i := i + 1;
    }
    assert all[..i] == all;
  }

  lemma NothingIndexed(m: State)
    requires m.cameras == map[]
    ensures Indexes(map[], m)
  {
  }

  /** A returning writer's session takes its predecessor's place in the list, if it is there. */
  method Substitute(lists: Lists, ghost m: State, camera: Addr, was: Session, session: Session)
    returns (lists': Lists)
    requires Wf(m) && Indexes(lists, m)
    requires was.addr in m.assign && m.assign[was.addr] == camera && m.writers[was.addr] == was
    requires session == Session(was.addr, m.last + 1)
    ensures Indexes(lists', WithWriter(m, was.addr))
  {
    if camera in lists {
      FoundIffListed(lists, m, was.addr);
      var i := Find(lists[camera], was);
      if i < |lists[camera]| {
        ReturningWriterIndexed(lists, m, was.addr, i);
        return lists[camera := lists[camera][i := session]];
      }
    }
    HiddenWriterIndexed(lists, m, was.addr);
    return lists;
  }

  lemma WriterFacts(lists: Lists, m: State, w: Addr)
    requires Wf(m) && Indexes(lists, m)
    ensures lists.Keys == m.cameras.Keys
    ensures w in m.assign ==> w in m.writers && m.cameras != map[]
    ensures w in m.writers ==> m.writers[w].addr == w
    ensures w in m.unlisted ==> w in m.assign
    ensures m.cameras != map[] && w in m.writers ==> w in m.assign
  {
  }

  lemma NotFoundIsHidden(lists: Lists, m: State, s: Session)
    requires Wf(m) && Indexes(lists, m) && IsCurrent(m.writers, s) && s.addr in m.assign
    requires m.assign[s.addr] !in lists || lists[m.assign[s.addr]] == []
    ensures Indexes(lists, WithoutWriter(m, s))
  {
    if m.assign[s.addr] in lists {
      FoundIffListed(lists, m, s.addr);
    }
    HiddenRemovalIndexed(lists, m, s);
  }

  lemma NobodyAt(lists: Lists, m: State, a: Addr)
    requires Wf(m) && Indexes(lists, m)
    ensures a in lists ==> Enumerates(lists[a], m, a)
    ensures a !in lists ==> forall s :: !ListedAt(m, a, s)
  {
  }

  lemma MoveWf(m: State, w: Addr, target: Addr)
    requires Wf(m) && w in m.assign && target in m.cameras
    ensures Wf(m.(assign := m.assign[w := target]))
  {
    assert m.assign[w := target].Keys == m.assign.Keys;
  }

  /** The loop that empties every list into one. */
  method Gather(lists: Lists, ghost m: State, target: Addr) returns (now: Lists)
    requires Wf(m) && Indexes(lists, m) && target in lists
    ensures Indexes(now, PointedAt(m, target))
  {
    hide Wf, Indexes, Gathering, Sorted, Remaining;
    GatherStart(lists, m, target);
    RemainingEnds(lists.Keys);
    var keys := Sorted(lists.Keys);
    now := lists;
    for i := 0 to |keys|
      invariant Gathering(lists, m, target, Remaining(keys, i), now)
    {
      GatherNext(lists, m, target, i, now);
      var a := keys[i];
      if a != target && now[a] != [] {
        now := now[target := now[target] + now[a]][a := []];
      }
    }
    GatherEnd(lists, m, target, now);
  }

  lemma ClearWf(m: State)
    requires Wf(m)
    ensures Registered(m.cameras, m.last) && Registered(m.writers, m.last)
    ensures Wf(EMPTY.(last := m.last)) && Indexes(map[], EMPTY.(last := m.last))
  {
  }

  method SessionsInOrder(sessions: map<Addr, Session>, ghost last: nat) returns (r: seq<Session>)
    requires Registered(sessions, last)
    ensures Distinct(r)
    ensures forall s :: s in r <==> s.addr in sessions && sessions[s.addr] == s
  {
    var keys := Sorted(sessions.Keys);
    r := [];
    for i := 0 to |keys|
      invariant |r| == i
      invariant forall j :: 0 <= j < i ==> keys[j] in sessions && r[j] == sessions[keys[j]]
    {
      assert keys[i] in keys;
      r := r + [sessions[keys[i]]];
    }
    assert forall i :: 0 <= i < |r| ==> r[i].addr == keys[i];
    forall s: Session | s.addr in sessions && sessions[s.addr] == s
      ensures s in r
    {
      assert s.addr in keys;
      var j :| 0 <= j < |keys| && keys[j] == s.addr;
      assert r[j] == s;
    }
  }

  class Manager {
    var readerSessions: map<Addr, Session>
    var writerSessions: map<Addr, Session>
    var readerConnections: Lists
    var writerConnections: map<Addr, Addr>
    var lastSessionNumber: nat
    /** The writers a re-registration has hidden: no code reads this. */
    ghost var unlisted: set<Addr>

    ghost function Abs(): State
      reads this
    {
      State(readerSessions, writerSessions, writerConnections, unlisted, lastSessionNumber)
    }

    ghost predicate Valid()
      reads this
    {
      Wf(Abs()) && Indexes(readerConnections, Abs())
    }

    constructor ()
      ensures Valid() && Abs() == EMPTY
    {
      readerSessions, writerSessions, readerConnections, writerConnections := map[], map[], map[], map[];
      lastSessionNumber, unlisted := 0, {};
    }

    /** The first camera gets all the writers there are. */
    method StartWithEveryone(addr: Addr)
      requires Valid() && readerSessions == map[]
      modifies this
      ensures Valid() && Abs() == WithReader(old(Abs()), addr) && lastSessionNumber == old(lastSessionNumber) + 1
    {
      hide Wf, Indexes, Sorted, AllAt;
      ghost var m := Abs();
      NoReaders(readerConnections, m);
      var recorded, connections := AttachAll(writerSessions, writerConnections, addr);
      FirstReaderIndexed(m, addr, connections);
      WithReaderWf(m, addr);
      var sessions := readerSessions[addr := Session(addr, lastSessionNumber + 1)];
      var lists := readerConnections[addr := connections];
      assert lists == map[addr := connections];
      readerSessions, readerConnections, writerConnections := sessions, lists, recorded;
      lastSessionNumber, unlisted := lastSessionNumber + 1, {};
    }

    /** Any other registration, of a new address or of one whose camera is still live, starts an empty list. */
    method StartEmpty(addr: Addr)
      requires Valid() && readerSessions != map[]
      modifies this
      ensures Valid() && Abs() == WithReader(old(Abs()), addr) && lastSessionNumber == old(lastSessionNumber) + 1
    {
      hide Wf, Indexes, RecordedAt;
      ghost var m := Abs();
      WithReaderWf(m, addr);
      LaterReaderIndexed(readerConnections, m, addr);
      var sessions := readerSessions[addr := Session(addr, lastSessionNumber + 1)];
      var lists := readerConnections[addr := []];
      readerSessions, readerConnections, lastSessionNumber := sessions, lists, lastSessionNumber + 1;
      unlisted := WithReader(m, addr).unlisted;
    }

    /** Returns the new session's number and the session it replaced, which is told to close. */
    method AddReaderSession(addr: Addr) returns (id: nat, replaced: Option<Session>)
      requires Valid()
      modifies this
      ensures Valid() && Abs() == Apply(old(Abs()), AddReader(addr)) && id == old(lastSessionNumber) + 1
      ensures replaced == if addr in old(readerSessions) then Some(old(readerSessions)[addr]) else None
    {
      hide Wf, Indexes, WithReader;
      var isFirstReader := readerSessions == map[];
      replaced := if addr in readerSessions then Some(readerSessions[addr]) else None;
      if isFirstReader {
        StartWithEveryone(addr);
      } else {
        StartEmpty(addr);
      }
      id := lastSessionNumber;
    }

    /** Removes a camera that is not the last, passing its writers on. */
    method PassOn(session: Session, replacement: Addr)
      requires Valid() && IsCurrent(readerSessions, session) && |readerSessions| > 1
      requires replacement == Next(readerSessions.Keys, session.addr)
      modifies this
      ensures Valid() && Abs() == WithoutReader(old(Abs()), session)
    {
      hide Wf, Indexes, Next, Redirect;
      ghost var m, lists, dead := Abs(), readerConnections, session.addr;
      WithoutReaderWf(m, session);
      ReaderRemovalIndexed(lists, m, session, replacement);
      RedirectIsRemoval(lists, m, session);
      var moved, recorded := Drain(readerConnections, writerConnections, session.addr, replacement);
      moved := moved - {session.addr};
      assert moved == lists[replacement := lists[replacement] + lists[dead]] - {dead};
      readerConnections, writerConnections, readerSessions := moved, recorded, readerSessions - {session.addr};
    }

    method RemoveReaderSession(session: Session)
      requires Valid()
      modifies this
      ensures Valid() && Abs() == Apply(old(Abs()), RemoveReader(session))
    {
      hide Wf, Indexes, Next;
      ghost var m := Abs();
      WithoutReaderWf(m, session);
      var dead := session.addr;
      if dead !in readerSessions || readerSessions[dead].id != session.id {
        return;
      }
      if |readerSessions| == 1 {
        NothingIndexed(WithoutReader(m, session));
        writerConnections, readerConnections, readerSessions := map[], map[], map[];
        unlisted := {};
        return;
      }
      PassOn(session, Next(readerSessions.Keys, dead));
    }

    method AddWriterSession(addr: Addr) returns (id: nat, replaced: Option<Session>)
      requires Valid()
      modifies this
      ensures Valid() && Abs() == Apply(old(Abs()), AddWriter(addr)) && id == old(lastSessionNumber) + 1
      ensures replaced == if addr in old(writerSessions) then Some(old(writerSessions)[addr]) else None
    {
      hide Wf, Indexes, First;
      ghost var m := Abs();
      WithWriterWf(m, addr);
      WriterFacts(readerConnections, m, addr);
      var session := Session(addr, lastSessionNumber + 1);
      replaced := if addr in writerSessions then Some(writerSessions[addr]) else None;
      var replaceConnection :=
        if replaced.Some? && addr in writerConnections then Some(writerConnections[addr]) else None;
      var lists, recorded := readerConnections, writerConnections;
      if replaceConnection.None? {
        if readerSessions != map[] {
          var first := First(readerSessions.Keys);
          if first in readerConnections {
            NewWriterIndexed(readerConnections, m, addr, first);
            lists := readerConnections[first := readerConnections[first] + [session]];
            recorded := writerConnections[addr := first];
          }
        } else {
          HiddenWriterIndexed(readerConnections, m, addr);
        }
      } else {
        lists := Substitute(readerConnections, m, replaceConnection.value, replaced.value, session);
      }
      var sessions := writerSessions[addr := session];
      writerSessions, readerConnections, writerConnections := sessions, lists, recorded;
      lastSessionNumber := lastSessionNumber + 1;
      id := lastSessionNumber;
    }

    method RemoveWriterSession(session: Session)
      requires Valid()
      modifies this
      ensures Valid() && Abs() == Apply(old(Abs()), RemoveWriter(session))
    {
      hide Wf, Indexes;
      ghost var m := Abs();
      WithoutWriterWf(m, session);
      WriterFacts(readerConnections, m, session.addr);
      var dead := session.addr;
      if dead !in writerSessions || writerSessions[dead].id != session.id {
        return;
      }
      if |writerSessions| == 1 {
        LastWriterIndexed(readerConnections, m, session);
        writerConnections := map[];
        readerConnections := map a | a in readerConnections :: [];
        writerSessions := map[];
        unlisted := {};
        return;
      }
      if dead !in writerConnections {
        HiddenRemovalIndexed(readerConnections, m, session);
        assert m.assign - {dead} == m.assign;
      } else {
        var camera := writerConnections[dead];
        if camera !in readerConnections || readerConnections[camera] == [] {
          NotFoundIsHidden(readerConnections, m, session);
        } else {
          FoundIffListed(readerConnections, m, dead);
          var i := Find(readerConnections[camera], session);
          if i == |readerConnections[camera]| {
            HiddenRemovalIndexed(readerConnections, m, session);
          } else {
            WriterRemovalIndexed(readerConnections, m, session, i);
            readerConnections := readerConnections[camera := RemoveAt(readerConnections[camera], i)];
          }
        }
        writerConnections := writerConnections - {dead};
      }
      writerSessions := writerSessions - {dead};
      unlisted := unlisted - {dead};
    }

    /** The writers a camera's frame is copied to. */
    method PostMessage(addr: Addr) returns (targets: seq<Session>)
      requires Valid()
      ensures Distinct(targets)
      ensures forall s :: s in targets <==> ListedAt(Abs(), addr, s)
    {
      hide Wf, Indexes, ListedAt;
      ghost var m := Abs();
      NobodyAt(readerConnections, m, addr);
      targets := [];
      if addr !in readerConnections {
        return;
      }
      var connections := readerConnections[addr];
      for i := 0 to |connections|
        invariant targets == connections[..i]
      {
        targets := targets + [connections[i]];
      }
      assert targets == connections;
    }

    /** Moves one writer to another camera; answers whether it was found. */
    method MoveWriter(writer: Addr, target: Addr) returns (ok: bool)
      requires Valid() && writer in writerConnections && writerConnections[writer] in readerSessions
      requires target in readerSessions && target != writerConnections[writer]
      modifies this`readerConnections, this`writerConnections
      ensures Valid() && ok == (writer !in unlisted)
      ensures Abs() == if ok then old(Abs()).(assign := old(writerConnections)[writer := target]) else old(Abs())
    {
      hide Wf, Indexes;
      ghost var m := Abs();
      WriterFacts(readerConnections, m, writer);
      var current := writerConnections[writer];
      FoundIffListed(readerConnections, m, writer);
      if readerConnections[current] == [] {
        return false;
      }
      var i := FindAddr(readerConnections[current], writer);
      if i == |readerConnections[current]| {
        return false;
      }
      MoveIndexed(readerConnections, m, writer, target, i);
      MoveWf(m, writer, target);
      var lists := readerConnections[target := readerConnections[target] + [readerConnections[current][i]]];
      lists := lists[current := RemoveAt(lists[current], i)];
      readerConnections, writerConnections := lists, writerConnections[writer := target];
      return true;
    }

    method RotateWriterConnection(writer: Addr) returns (ok: bool)
      requires Valid()
      modifies this
      ensures Valid() && Abs() == Apply(old(Abs()), Rotate(writer))
      ensures ok <==> old(writer in writerConnections && writerConnections[writer] in readerSessions &&
                          (|readerSessions| == 1 || writer !in unlisted))
    {
      hide Wf, Indexes, Next, First, Point;
      if writer !in writerConnections || writerConnections[writer] !in readerSessions {
        return false;
      }
      if |readerSessions| == 1 {
        return true;
      }
      NextMoves(readerSessions.Keys, writerConnections[writer]) by {
        assert |readerSessions.Keys| == |readerSessions| && readerSessions.Keys != {};
      }
      ok := MoveWriter(writer, Next(readerSessions.Keys, writerConnections[writer]));
    }

    method ResetWriterConnection(writer: Addr) returns (ok: bool)
      requires Valid()
      modifies this
      ensures Valid() && Abs() == Apply(old(Abs()), Reset(writer))
      ensures ok <==> old(writer in writerConnections && writerConnections[writer] in readerSessions &&
                          (|readerSessions| == 1 || writerConnections[writer] == First(readerSessions.Keys) ||
                           writer !in unlisted))
    {
      hide Wf, Indexes, Next, First, Point;
      if writer !in writerConnections || writerConnections[writer] !in readerSessions {
        return false;
      }
      var first := First(readerSessions.Keys);
      if |readerSessions| == 1 || writerConnections[writer] == first {
        assert writerConnections[writer := writerConnections[writer]] == writerConnections;
        return true;
      }
      ok := MoveWriter(writer, first);
    }

    /** Empties every list into the target's and records every writer there. */
    method MoveAll(target: Addr)
      requires Valid() && target in readerSessions
      modifies this`readerConnections, this`writerConnections
      ensures Valid() && Abs() == PointedAt(old(Abs()), target)
    {
      hide Wf, Indexes, Point;
      ghost var m := Abs();
      PointedAtWf(m, target);
      WriterFacts(readerConnections, m, target);
      var lists := Gather(readerConnections, m, target);
      readerConnections, writerConnections := lists, Point(writerConnections, target);
    }

    method RotateAllConnections() returns (ok: bool)
      requires Valid()
      modifies this
      ensures Valid() && Abs() == Apply(old(Abs()), RotateAll)
      ensures ok <==> CanRotateAll(old(Abs()))
    {
      hide Wf, Indexes, Next, First, Point;
      if writerConnections == map[] || |readerSessions| <= 1 {
        return false;
      }
      var oldAddr := writerConnections[First(writerConnections.Keys)];
      if oldAddr !in readerSessions {
        return false;
      }
      MoveAll(Next(readerSessions.Keys, oldAddr));
      return true;
    }

    method PointReaderAtWriters(addr: Addr) returns (ok: bool)
      requires Valid()
      modifies this
      ensures Valid() && Abs() == Apply(old(Abs()), PointAt(addr))
      ensures ok <==> addr in old(readerSessions)
    {
      hide Wf, Indexes, Next, First, Point;
      if addr !in readerSessions {
        return false;
      }
      MoveAll(addr);
      return true;
    }

    /** Forgets everything and returns the sessions to be told to close, each once. */
    method ClearAll() returns (readers: seq<Session>, writers: seq<Session>)
      requires Valid()
      modifies this
      ensures Valid() && Abs() == Apply(old(Abs()), Clear)
      ensures Distinct(readers) && Distinct(writers)
      ensures forall s :: s in readers <==> s.addr in old(readerSessions) && old(readerSessions)[s.addr] == s
      ensures forall s :: s in writers <==> s.addr in old(writerSessions) && old(writerSessions)[s.addr] == s
    {
      hide Wf, Indexes, Next, First, Point;
      ClearWf(Abs());
      readers := SessionsInOrder(readerSessions, lastSessionNumber);
      writers := SessionsInOrder(writerSessions, lastSessionNumber);
      readerConnections, writerConnections := map[], map[];
      readerSessions, writerSessions := map[], map[];
      unlisted := {};
    }

    /** One call of the run, by name. */
    method Perform(op: Op)
      requires Valid()
      modifies this
      ensures Valid() && Abs() == Apply(old(Abs()), op)
    {
      hide Wf, Indexes, WithReader, WithoutReader, WithWriter, WithoutWriter, Rotated, WithReset, PointedAt, AllRotated;
      match op
      case AddReader(a) => var _, _ := AddReaderSession(a);
      case RemoveReader(s) => RemoveReaderSession(s);
      case AddWriter(w) => var _, _ := AddWriterSession(w);
      case RemoveWriter(s) => RemoveWriterSession(s);
      case Rotate(w) => var _ := RotateWriterConnection(w);
      case Reset(w) => var _ := ResetWriterConnection(w);
      case RotateAll => var _ := RotateAllConnections();
      case PointAt(a) => var _ := PointReaderAtWriters(a);
      case Clear => var _, _ := ClearAll();
    }
  }

  /** Whole runs of calls are whole runs of the assignment function: after any sequence of calls the index
      still agrees with it. */
  method RunAll(ops: seq<Op>) returns (manager: Manager)
    ensures fresh(manager) && manager.Valid() && manager.Abs() == Run(EMPTY, ops)
  {
    manager := new Manager();
    for i := 0 to |ops|
      invariant fresh(manager) && manager.Valid()
      invariant Run(manager.Abs(), ops[i..]) == Run(EMPTY, ops)
    {
      assert ops[i..][1..] == ops[i + 1..];
      manager.Perform(ops[i]);
    }
  }

  /** Every run of calls, followed by a post: the frame goes to exactly the writers recorded at that camera,
      once each, except those a re-registration has hidden; so to exactly the recorded ones unless a call of
      the run re-registered a camera that somebody was watching. */
  method PostAfter(ops: seq<Op>, addr: Addr) returns (targets: seq<Session>)
    ensures Distinct(targets)
    ensures var m := Run(EMPTY, ops);
            forall s :: s in targets <==>
              && s.addr in m.writers && m.writers[s.addr] == s && s.addr in m.assign && m.assign[s.addr] == addr
              && s.addr !in m.unlisted
    ensures NeverHides(EMPTY, ops) ==> Run(EMPTY, ops).unlisted == {}
  {
    hide Wf, Indexes, Run, NeverHides;
    if NeverHides(EMPTY, ops) {
      StrongInvariant(ops);
    }
    var manager := RunAll(ops);
    targets := manager.PostMessage(addr);
  }
}
