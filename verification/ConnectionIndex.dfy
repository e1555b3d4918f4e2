/** The inverted index: for each camera the list of writers to copy its frames to. It is a second copy of
    the assignment function, and these lemmas say which edits keep the two in agreement. */
module ConnectionIndex {
  import opened Common
  import opened AddressOrder
  import opened Assignment

  type Lists = map<Addr, seq<Session>>

  /** A scan of the assignment function: the writer's current session, recorded at this camera and not
      hidden. */
  predicate ListedAt(m: State, a: Addr, s: Session) {
    && s.addr in m.writers && m.writers[s.addr] == s
    && s.addr in m.assign && m.assign[s.addr] == a && s.addr !in m.unlisted
  }

  /** The list is exactly the scan: everybody who should be there, once, and nobody else. */
  ghost predicate Enumerates(list: seq<Session>, m: State, a: Addr) {
    Distinct(list) && forall s :: s in list <==> ListedAt(m, a, s)
  }

  ghost predicate Indexes(lists: Lists, m: State) {
    && lists.Keys == m.cameras.Keys
    && forall a :: a in lists ==> Enumerates(lists[a], m, a)
  }

  lemma OnceInMultiset(list: seq<Session>, s: Session)
    requires Distinct(list) && s in list
    ensures multiset(list)[s] == 1
  {
    var i :| 0 <= i < |list| && list[i] == s;
    assert list == list[..i] + [s] + list[i + 1..];
    assert s !in list[..i] && s !in list[i + 1..];
  }

  /** In terms of the lists alone: a listed writer is listed once, in one list, as its current session,
      where it is recorded. */
  lemma ListedOnce(lists: Lists, m: State, a: Addr, b: Addr, s: Session, t: Session)
    requires Indexes(lists, m) && a in lists && b in lists && s in lists[a] && t in lists[b]
    ensures multiset(lists[a])[s] == 1
    ensures s.addr in m.writers && m.writers[s.addr] == s && s.addr in m.assign && m.assign[s.addr] == a
    ensures s.addr == t.addr ==> a == b && s == t
  {
    assert Enumerates(lists[a], m, a) && Enumerates(lists[b], m, b);
    OnceInMultiset(lists[a], s);
  }

  /** The hidden writers are exactly the recorded ones that no list holds. */
  lemma HiddenIffInNoList(lists: Lists, m: State, w: Addr)
    requires Wf(m) && Indexes(lists, m) && w in m.assign
    ensures w in m.unlisted <==> forall a :: a in lists ==> m.writers[w] !in lists[a]
  {
    if m.assign[w] in lists {
      assert m.writers[w] in lists[m.assign[w]] <==> ListedAt(m, m.assign[w], m.writers[w]);
    }
    forall a | a in lists && m.writers[w] in lists[a]
      ensures w !in m.unlisted
    {
      assert ListedAt(m, a, m.writers[w]);
    }
  }

  // ---- Lists -------------------------------------------------------------------------------

  /** `std::find`: the first position of a session, or the length. */
  function Find(list: seq<Session>, s: Session): (i: nat)
    ensures i <= |list| && (i < |list| ==> list[i] == s)
    ensures i == |list| <==> s !in list
  {
    if list == [] || list[0] == s then 0 else 1 + Find(list[1..], s)
  }

  /** `std::find_if` by address. */
  function FindAddr(list: seq<Session>, w: Addr): (i: nat)
    ensures i <= |list| && (i < |list| ==> list[i].addr == w)
    ensures i == |list| <==> forall s :: s in list ==> s.addr != w
  {
    if list == [] || list[0].addr == w then 0 else 1 + FindAddr(list[1..], w)
  }

  lemma EraseMembers(list: seq<Session>, i: nat)
    requires i < |list| && Distinct(list)
    ensures Distinct(RemoveAt(list, i))
    ensures forall s :: s in RemoveAt(list, i) <==> s in list && s != list[i]
  {
    var r := RemoveAt(list, i);
    forall s | s in list && s != list[i]
      ensures s in r
    {
      var j :| 0 <= j < |list| && list[j] == s;
      assert r[if j < i then j else j - 1] == s;
    }
  }

  lemma AppendMembers(x: seq<Session>, y: seq<Session>)
    requires Distinct(x) && Distinct(y) && forall s :: s in x ==> s !in y
    ensures Distinct(x + y)
    ensures forall s :: s in x + y <==> s in x || s in y
  {
    forall i, j | 0 <= i < j < |x + y|
      ensures (x + y)[i] != (x + y)[j]
    {
      if i < |x| <= j {
        assert x[i] in x && y[j - |x|] in y;
      }
    }
  }

  lemma ReplaceMembers(list: seq<Session>, i: nat, t: Session)
    requires i < |list| && Distinct(list) && t !in list
    ensures Distinct(list[i := t])
    ensures forall s :: s in list[i := t] <==> (s in list && s != list[i]) || s == t
  {
    var r := list[i := t];
    assert r[i] == t;
    forall s | s in list && s != list[i]
      ensures s in r
    {
      var j :| 0 <= j < |list| && list[j] == s;
      assert r[j] == s;
    }
  }

  /** A writer can be found in its camera's list exactly when it is not hidden. */
  lemma FoundIffListed(lists: Lists, m: State, w: Addr)
    requires Wf(m) && Indexes(lists, m) && w in m.assign && m.assign[w] in lists
    ensures var list := lists[m.assign[w]];
            && (w in m.unlisted <==> FindAddr(list, w) == |list|)
            && (w in m.unlisted <==> Find(list, m.writers[w]) == |list|)
            && (w !in m.unlisted ==> list[FindAddr(list, w)] == m.writers[w])
  {
    var list := lists[m.assign[w]];
    assert m.writers[w] in list <==> ListedAt(m, m.assign[w], m.writers[w]);
    if FindAddr(list, w) < |list| {
      assert list[FindAddr(list, w)] in list;
    }
  }

  // ---- Edits -------------------------------------------------------------------------------

  /** The first camera's list: every writer in address order. */
  lemma FirstReaderIndexed(m: State, a: Addr, list: seq<Session>)
    requires Wf(m) && m.cameras == map[]
    requires |list| == |m.writers.Keys|
    requires forall i :: 0 <= i < |list| ==> list[i] == m.writers[Sorted(m.writers.Keys)[i]]
    ensures Indexes(map[a := list], WithReader(m, a))
  {
    hide Sorted;
    var m', keys := WithReader(m, a), Sorted(m.writers.Keys);
    forall i, j | 0 <= i < j < |list|
      ensures list[i] != list[j]
    {
      assert keys[i] in keys && keys[j] in keys;
    }
    forall s
      ensures s in list <==> ListedAt(m', a, s)
    {
      if ListedAt(m', a, s) {
        assert s.addr in keys;
        var i :| 0 <= i < |keys| && keys[i] == s.addr;
        assert list[i] == s;
      }
      if s in list {
        var i :| 0 <= i < |list| && list[i] == s;
        assert keys[i] in keys;
      }
    }
  }

  /** It is enough to look at the cameras whose list was edited. */
  lemma Reindex(lists: Lists, m: State, lists': Lists, m': State, edited: set<Addr>)
    requires Indexes(lists, m) && lists'.Keys == m'.cameras.Keys
    requires forall b :: b in lists' && b !in edited ==> b in lists && lists'[b] == lists[b]
    requires forall b, s :: b in lists' && b !in edited ==> (ListedAt(m', b, s) <==> ListedAt(m, b, s))
    requires forall b :: b in lists' && b in edited ==> Enumerates(lists'[b], m', b)
    ensures Indexes(lists', m')
  {
    hide ListedAt;
    forall b | b in lists' && b !in edited
      ensures Enumerates(lists'[b], m', b)
    {
      assert Enumerates(lists[b], m, b);
    }
  }

  /** Any later camera, new or re-registered, starts with an empty list. */
  lemma LaterReaderIndexed(lists: Lists, m: State, a: Addr)
    requires Wf(m) && Indexes(lists, m) && m.cameras != map[]
    ensures Indexes(lists[a := []], WithReader(m, a))
  {
    var m' := WithReader(m, a);
    forall b, s
      ensures ListedAt(m', b, s) <==> ListedAt(m, b, s) && b != a
    {
    }
    Reindex(lists, m, lists[a := []], m', {a});
  }

  /** Appending one camera's list to the next one's and dropping the camera. */
  lemma ReaderRemovalIndexed(lists: Lists, m: State, s: Session, next: Addr)
    requires Wf(m) && Indexes(lists, m) && IsCurrent(m.cameras, s) && |m.cameras| > 1
    requires next == Next(m.cameras.Keys, s.addr)
    ensures next in lists && s.addr in lists && next != s.addr
    ensures Indexes(lists[next := lists[next] + lists[s.addr]] - {s.addr}, WithoutReader(m, s))
  {
    hide Next;
    assert |m.cameras.Keys| == |m.cameras|;
    NextMoves(m.cameras.Keys, s.addr);
    var m', dead := WithoutReader(m, s), s.addr;
    forall b, t
      ensures ListedAt(m', b, t) <==> (ListedAt(m, b, t) && b != dead) || (b == next && ListedAt(m, dead, t))
    {
    }
    assert Enumerates(lists[next], m, next) && Enumerates(lists[dead], m, dead);
    AppendMembers(lists[next], lists[dead]);
    Reindex(lists, m, lists[next := lists[next] + lists[dead]] - {dead}, m', {next});
  }

  /** Recording a list of writers at a camera, one after the other. */
  function Redirect(assign: map<Addr, Addr>, list: seq<Session>, camera: Addr): map<Addr, Addr>
    decreases |list|
  {
    if list == [] then assign else Redirect(assign[list[0].addr := camera], list[1..], camera)
  }

  ghost predicate Names(list: seq<Session>, w: Addr) {
    exists s :: s in list && s.addr == w
  }

  lemma {:induction false} RedirectValue(assign: map<Addr, Addr>, list: seq<Session>, camera: Addr, w: Addr)
    ensures w in Redirect(assign, list, camera) <==> w in assign || Names(list, w)
    ensures w in Redirect(assign, list, camera) ==>
              Redirect(assign, list, camera)[w] == if Names(list, w) then camera else assign[w]
    decreases |list|
  {
    if list == [] {
    } else {
      RedirectValue(assign[list[0].addr := camera], list[1..], camera, w);
      assert list == [list[0]] + list[1..];
      assert Names(list, w) <==> list[0].addr == w || Names(list[1..], w);
    }
  }

  /** Redirecting the dead camera's list is what removing the camera means. */
  lemma RedirectIsRemoval(lists: Lists, m: State, s: Session)
    requires Wf(m) && Indexes(lists, m) && IsCurrent(m.cameras, s) && |m.cameras| > 1 && s.addr in lists
    ensures WithoutReader(m, s).assign == Redirect(m.assign, lists[s.addr], Next(m.cameras.Keys, s.addr))
  {
    hide Next;
    var dead, next := s.addr, Next(m.cameras.Keys, s.addr);
    assert Enumerates(lists[dead], m, dead);
    var redirected, removed := Redirect(m.assign, lists[dead], next), WithoutReader(m, s).assign;
    forall w
      ensures w in redirected <==> w in removed
      ensures w in removed ==> redirected[w] == removed[w]
    {
      RedirectValue(m.assign, lists[dead], next, w);
      if w in m.assign {
        assert Names(lists[dead], w) <==> m.assign[w] == dead && w !in m.unlisted by {
          assert m.writers[w] in lists[dead] <==> ListedAt(m, dead, m.writers[w]);
        }
      }
    }
  }

  /** A new writer appended to the first camera's list. */
  lemma NewWriterIndexed(lists: Lists, m: State, w: Addr, first: Addr)
    requires Wf(m) && Indexes(lists, m) && w !in m.assign && m.cameras != map[]
    requires first == First(m.cameras.Keys)
    ensures first in lists
    ensures Indexes(lists[first := lists[first] + [Session(w, m.last + 1)]], WithWriter(m, w))
  {
    hide First;
    var m', s := WithWriter(m, w), Session(w, m.last + 1);
    assert w !in m.writers;
    forall b, t
      ensures ListedAt(m', b, t) <==> ListedAt(m, b, t) || (b == first && t == s)
    {
    }
    assert Enumerates(lists[first], m, first) && !ListedAt(m, first, s);
    AppendMembers(lists[first], [s]);
    Reindex(lists, m, lists[first := lists[first] + [s]], m', {first});
  }

  /** A returning writer's new session swapped in where the old one was. */
  lemma ReturningWriterIndexed(lists: Lists, m: State, w: Addr, i: nat)
    requires Wf(m) && Indexes(lists, m) && w in m.assign && w !in m.unlisted
    requires m.assign[w] in lists && i < |lists[m.assign[w]]| && lists[m.assign[w]][i] == m.writers[w]
    ensures Indexes(lists[m.assign[w] := lists[m.assign[w]][i := Session(w, m.last + 1)]], WithWriter(m, w))
  {
    var m', a, was, now := WithWriter(m, w), m.assign[w], m.writers[w], Session(w, m.last + 1);
    forall b, t
      ensures ListedAt(m', b, t) <==> (ListedAt(m, b, t) && t != was) || (b == a && t == now)
    {
    }
    assert Enumerates(lists[a], m, a) && !ListedAt(m, a, now);
    ReplaceMembers(lists[a], i, now);
    Reindex(lists, m, lists[a := lists[a][i := now]], m', {a});
  }

  /** A hidden writer that returns stays hidden. */
  lemma HiddenWriterIndexed(lists: Lists, m: State, w: Addr)
    requires Wf(m) && Indexes(lists, m) && (w in m.unlisted || m.cameras == map[])
    ensures Indexes(lists, WithWriter(m, w))
  {
    var m' := WithWriter(m, w);
    forall b, t | b in lists
      ensures ListedAt(m', b, t) <==> ListedAt(m, b, t)
    {
    }
    Reindex(lists, m, lists, m', {});
  }

  /** A leaving writer erased from its camera's list. */
  lemma WriterRemovalIndexed(lists: Lists, m: State, s: Session, i: nat)
    requires Wf(m) && Indexes(lists, m) && IsCurrent(m.writers, s)
    requires s.addr in m.assign && s.addr !in m.unlisted
    requires m.assign[s.addr] in lists && i < |lists[m.assign[s.addr]]| && lists[m.assign[s.addr]][i] == s
    ensures Indexes(lists[m.assign[s.addr] := RemoveAt(lists[m.assign[s.addr]], i)], WithoutWriter(m, s))
  {
    var m', a := WithoutWriter(m, s), m.assign[s.addr];
    forall b, t
      ensures ListedAt(m', b, t) <==> ListedAt(m, b, t) && t != s
    {
    }
    assert Enumerates(lists[a], m, a);
    EraseMembers(lists[a], i);
    Reindex(lists, m, lists[a := RemoveAt(lists[a], i)], m', {a});
  }

  /** A leaving writer that no list holds. */
  lemma HiddenRemovalIndexed(lists: Lists, m: State, s: Session)
    requires Wf(m) && Indexes(lists, m) && IsCurrent(m.writers, s)
    requires s.addr !in m.assign || s.addr in m.unlisted
    ensures Indexes(lists, WithoutWriter(m, s))
  {
    var m' := WithoutWriter(m, s);
    forall b, t
      ensures ListedAt(m', b, t) <==> ListedAt(m, b, t)
    {
    }
    Reindex(lists, m, lists, m', {});
  }

  lemma OnlyMember(s: set<Addr>, x: Addr)
    requires x in s && |s| == 1
    ensures s == {x}
  {
    assert |s - {x}| == 0;
  }

  /** The last writer leaving empties every list. */
  lemma LastWriterIndexed(lists: Lists, m: State, s: Session)
    requires Wf(m) && Indexes(lists, m) && IsCurrent(m.writers, s) && |m.writers| == 1
    ensures WithoutWriter(m, s) == m.(writers := map[], assign := map[], unlisted := {})
    ensures Indexes(map a | a in lists :: [], WithoutWriter(m, s))
  {
    assert |m.writers.Keys| == 1;
    OnlyMember(m.writers.Keys, s.addr);
    assert m.writers - {s.addr} == map[];
    assert m.assign - {s.addr} == map[];
    assert m.unlisted - {s.addr} == {};
  }

  /** Moving one listed writer between two lists. */
  lemma MoveIndexed(lists: Lists, m: State, w: Addr, target: Addr, i: nat)
    requires Wf(m) && Indexes(lists, m) && w in m.assign && w !in m.unlisted
    requires m.assign[w] != target && target in m.cameras && m.assign[w] in m.cameras
    requires i < |lists[m.assign[w]]| && lists[m.assign[w]][i] == m.writers[w]
    ensures var a := m.assign[w];
            Indexes(lists[target := lists[target] + [lists[a][i]]][a := RemoveAt(lists[a], i)],
                    m.(assign := m.assign[w := target]))
  {
    var m', a, s := m.(assign := m.assign[w := target]), m.assign[w], m.writers[w];
    forall b, t
      ensures ListedAt(m', b, t) <==> (ListedAt(m, b, t) && t != s) || (b == target && t == s)
    {
    }
    assert Enumerates(lists[a], m, a) && Enumerates(lists[target], m, target);
    EraseMembers(lists[a], i);
    AppendMembers(lists[target], [s]);
    Reindex(lists, m, lists[target := lists[target] + [s]][a := RemoveAt(lists[a], i)], m', {a, target});
  }

  // ---- Gathering every writer at one camera ------------------------------------------------

  /** The list holds the writers of exactly these cameras, each once. */
  ghost predicate Gathers(list: seq<Session>, m: State, cameras: set<Addr>) {
    && Distinct(list)
    && (forall s :: s in list ==> s.addr in m.assign && m.assign[s.addr] in cameras && ListedAt(m, m.assign[s.addr], s))
    && (forall s, a :: a in cameras && ListedAt(m, a, s) ==> s in list)
  }

  /** One camera's list joins those already gathered. */
  lemma GatherOne(lists: Lists, m: State, list: seq<Session>, done: set<Addr>, a: Addr)
    requires Indexes(lists, m) && a in lists && a !in done && Gathers(list, m, done)
    ensures Gathers(list + lists[a], m, done + {a})
  {
    assert Enumerates(lists[a], m, a);
    AppendMembers(list, lists[a]);
  }

  /** Half-way through gathering at `target`: the cameras in `todo` keep their lists, the others are empty. */
  ghost predicate Gathering(lists: Lists, m: State, target: Addr, todo: set<Addr>, now: Lists) {
    && now.Keys == lists.Keys == m.cameras.Keys && target in now
    && (forall a :: a in now && a != target ==> now[a] == if a in todo then lists[a] else [])
    && Gathers(now[target], m, (m.cameras.Keys - todo) + {target})
  }

  lemma GatherStart(lists: Lists, m: State, target: Addr)
    requires Indexes(lists, m) && target in lists
    ensures Gathering(lists, m, target, lists.Keys, lists)
  {
    assert Enumerates(lists[target], m, target);
    assert (m.cameras.Keys - lists.Keys) + {target} == {target};
  }

  lemma GatherStep(lists: Lists, m: State, target: Addr, todo: set<Addr>, now: Lists, a: Addr, next: Lists)
    requires Indexes(lists, m) && Gathering(lists, m, target, todo, now) && a in todo && a in now
    requires next == if a == target || now[a] == [] then now else now[target := now[target] + now[a]][a := []]
    ensures Gathering(lists, m, target, todo - {a}, next)
  {
    hide Gathers, Indexes;
    var done, done' := (m.cameras.Keys - todo) + {target}, (m.cameras.Keys - (todo - {a})) + {target};
    if a == target {
      assert done' == done;
    } else {
      assert done' == done + {a};
      GatherOne(lists, m, now[target], done, a);
      assert now[a] == [] ==> now[target] + now[a] == now[target];
    }
  }

  /** When all lists are gathered at one camera, pointing every writer there is the new assignment. */
  lemma GatheredIndexed(m: State, target: Addr, gathered: Lists)
    requires Wf(m) && target in m.cameras && gathered.Keys == m.cameras.Keys
    requires Gathers(gathered[target], m, m.cameras.Keys)
    requires forall a :: a in gathered && a != target ==> gathered[a] == []
    ensures Indexes(gathered, PointedAt(m, target))
  {
    var m' := PointedAt(m, target);
    forall s
      ensures ListedAt(m', target, s) <==> s in gathered[target]
    {
      if ListedAt(m', target, s) {
        assert ListedAt(m, m.assign[s.addr], s);
      }
    }
  }

  lemma GatherEnd(lists: Lists, m: State, target: Addr, now: Lists)
    requires Wf(m) && Gathering(lists, m, target, {}, now)
    ensures Indexes(now, PointedAt(m, target))
  {
    hide Gathers, PointedAt;
    assert (m.cameras.Keys - {}) + {target} == m.cameras.Keys;
    GatheredIndexed(m, target, now);
  }

  /** The keys still to be walked from position `i`. */
  ghost function Remaining(keys: seq<Addr>, i: nat): set<Addr>
    requires i <= |keys|
  {
    set a | a in keys[i..]
  }

  lemma RemainingStep(s: set<Addr>, i: nat)
    requires i < |s|
    ensures Sorted(s)[i] in Remaining(Sorted(s), i) && Sorted(s)[i] in s
    ensures Remaining(Sorted(s), i + 1) == Remaining(Sorted(s), i) - {Sorted(s)[i]}
  {
    hide Sorted;
    var keys := Sorted(s);
    assert keys[i..] == [keys[i]] + keys[i + 1..];
    assert keys[i] !in keys[i + 1..];
  }

  lemma RemainingEnds(s: set<Addr>)
    ensures Remaining(Sorted(s), 0) == s && Remaining(Sorted(s), |s|) == {}
  {
    hide Sorted;
    assert Sorted(s)[0..] == Sorted(s);
  }

  /** One turn of the gathering loop. */
  lemma GatherNext(lists: Lists, m: State, target: Addr, i: nat, now: Lists)
    requires Indexes(lists, m) && i < |lists.Keys|
    requires Gathering(lists, m, target, Remaining(Sorted(lists.Keys), i), now)
    ensures var a := Sorted(lists.Keys)[i];
            && a in now && target in now && now.Keys == lists.Keys
            && Gathering(lists, m, target, Remaining(Sorted(lists.Keys), i + 1),
                 if a == target || now[a] == [] then now else now[target := now[target] + now[a]][a := []])
  {
    hide Sorted, Remaining, Indexes, Gathers;
    var a, todo := Sorted(lists.Keys)[i], Remaining(Sorted(lists.Keys), i);
    RemainingStep(lists.Keys, i);
    GatherStep(lists, m, target, todo, now, a,
      if a == target || now[a] == [] then now else now[target := now[target] + now[a]][a := []]);
  }
}
