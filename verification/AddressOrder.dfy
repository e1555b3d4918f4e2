/** The order in which a `std::map` keyed by address is walked: its first key, the key after a given one
    (wrapping round), and the whole key sequence. */
module AddressOrder {
  type Addr = nat

  lemma {:induction false} LeastOf(s: set<Addr>) returns (x: Addr)
    requires s != {}
    ensures x in s && forall y :: y in s ==> x <= y
    decreases |s|
  {
    x :| x in s;
    var rest := s - {x};
    if rest != {} {
      var z := LeastOf(rest);
      assert forall y :: y in s ==> y == x || y in rest;
      if z < x {
        x := z;
      }
    } else {
      assert s == {x};
    }
  }

  lemma HasLeast(s: set<Addr>)
    requires s != {}
    ensures exists x :: x in s && forall y :: y in s ==> x <= y
  {
    var x := LeastOf(s);
  }

  /** The key `begin()` points at. */
  function First(s: set<Addr>): (x: Addr)
    requires s != {}
    ensures x in s && forall y :: y in s ==> x <= y
  {
    HasLeast(s);
    var x :| x in s && forall y :: y in s ==> x <= y;
    x
  }

  function Above(s: set<Addr>, a: Addr): (r: set<Addr>) {
    set x | x in s && a < x
  }

  /** The key `std::next` points at, or `begin()` past the last key. */
  function Next(s: set<Addr>, a: Addr): (x: Addr)
    requires s != {}
    ensures x in s
  {
    if Above(s, a) == {} then First(s) else First(Above(s, a))
  }

  lemma NextMoves(s: set<Addr>, a: Addr)
    requires a in s && |s| > 1
    ensures Next(s, a) != a
  {
    if Above(s, a) == {} {
      assert s != {a};
      var x :| x in s && x != a;
      assert x !in Above(s, a);
    }
  }

  /** All keys in walking order. */
  function Sorted(s: set<Addr>): (r: seq<Addr>)
    ensures |r| == |s|
    ensures forall x :: x in r <==> x in s
    ensures forall i, j :: 0 <= i < j < |r| ==> r[i] < r[j]
    decreases |s|
  {
    if s == {} then []
    else
      var x := First(s);
      var rest := Sorted(s - {x});
      assert forall y :: y in rest ==> x < y;
      [x] + rest
  }

  lemma SortedFirst(s: set<Addr>)
    requires s != {}
    ensures Sorted(s)[0] == First(s)
  {
  }

  lemma NextInside(s: set<Addr>, i: nat)
    requires i + 1 < |s|
    ensures Next(s, Sorted(s)[i]) == Sorted(s)[i + 1]
  {
    hide Sorted;
    var r := Sorted(s);
    assert r[i + 1] in r && r[i + 1] in Above(s, r[i]);
    var x := First(Above(s, r[i]));
    assert x in r;
    var j :| 0 <= j < |r| && r[j] == x;
    assert i < j;
  }

  lemma NextWraps(s: set<Addr>, i: nat)
    requires i + 1 == |s|
    ensures Next(s, Sorted(s)[i]) == Sorted(s)[0]
  {
    var r := Sorted(s);
    forall x | x in s
      ensures x <= r[i]
    {
      assert x in r;
    }
    assert Above(s, r[i]) == {};
    SortedFirst(s);
  }

  /** The position of a key in walking order. */
  function Index(s: set<Addr>, a: Addr): (i: nat)
    requires a in s
    ensures i < |s| && Sorted(s)[i] == a
  {
    assert a in Sorted(s);
    var i :| 0 <= i < |Sorted(s)| && Sorted(s)[i] == a;
    i
  }
}
