/** The freshness filter in front of the prototype's decoder: 16-bit numbers compared as in section 3.2 of
    RFC 1982 with SERIAL_BITS = 16, standing for numbers that never wrap. */
module RollingFilter {
  import opened Packet

  predicate RollingLess(a: Word16, b: Word16) {
    a != b && ((a < b && b - a < 32768) || (a > b && a - b > 32768))
  }

  /** How far `b` is ahead of `a` on the ring. */
  function Ahead(a: int, b: int): (d: Word16) {
    (b - a) % U16
  }

  /** `a` is less exactly when `b` is ahead by less than half the ring; so two numbers are equal, or one is
      less, or they are exactly half the ring apart, and never two of these at once. */
  lemma RollingLessIsAhead(a: Word16, b: Word16)
    ensures RollingLess(a, b) <==> 1 <= Ahead(a, b) < 32768
    ensures !(RollingLess(a, b) && RollingLess(b, a))
    ensures a == b || RollingLess(a, b) || RollingLess(b, a) || Ahead(a, b) == Ahead(b, a) == 32768
  {
  }

  datatype Input = Unparsable | Parsed(session: Word16, sequence: Word16, timestamp: Word16)

  datatype Filter = Filter(session: Word16, sequence: Word16, timestamp: Word16)

  predicate Accepts(f: Filter, p: Input) {
    && p.Parsed?
    && !RollingLess(p.session, f.session)
    && p.sequence != f.sequence
    && !RollingLess(p.sequence, f.sequence)
  }

  function After(f: Filter, p: Input): Filter {
    if Accepts(f, p) then Filter(p.session, p.sequence, p.timestamp) else f
  }

  class CudaDecoder {
    var sessionNumber: Word16
    var sequenceNumber: Word16
    var timestamp: Word16

    ghost function View(): Filter
      reads this
    {
      Filter(sessionNumber, sequenceNumber, timestamp)
    }

    constructor ()
      ensures View() == Filter(0, 0, 0)
    {
      sessionNumber, sequenceNumber, timestamp := 0, 0, 0;
    }

    method TryDecode(p: Input) returns (decoded: bool)
      modifies this
      ensures View() == After(old(View()), p) && decoded == Accepts(old(View()), p)
    {
      if p.Unparsable? || RollingLess(p.session, sessionNumber) || p.sequence == sequenceNumber ||
         RollingLess(p.sequence, sequenceNumber)
      {
        return false;
      }
      if p.session != sessionNumber {
        sessionNumber := p.session;
      }
      sequenceNumber := p.sequence;
      timestamp := p.timestamp;
      return true;
    }
  }

  // ---- Against numbers that never wrap -----------------------------------------------------

  /** The packet carrying logical number `x`. */
  function Carrying(session: Word16, x: int, timestamp: Word16): Input {
    Parsed(session, x % U16, timestamp)
  }

  /** Within a session, logical number `x` passes exactly when it is 1 to 2^15 ahead on the ring. */
  lemma AcceptsExactly(f: Filter, newest: int, x: int, timestamp: Word16)
    requires f.sequence == newest % U16
    ensures Accepts(f, Carrying(f.session, x, timestamp)) <==> 1 <= Ahead(newest, x) <= 32768
  {
    var a, b := newest % U16, x % U16;
    assert Ahead(newest, x) == Ahead(a, b);
    RollingLessIsAhead(b, a);
  }

  /** Whatever its session, a packet passes exactly when it parses, its session is not 1 to 2^15 - 1 behind the
      current one, and its number is 1 to 2^15 ahead. */
  lemma AcceptsAcrossSessions(f: Filter, p: Input)
    ensures Accepts(f, p) <==>
            && p.Parsed? && !(1 <= Ahead(p.session, f.session) < 32768)
            && 1 <= Ahead(f.sequence, p.sequence) <= 32768
  {
    if p.Parsed? {
      RollingLessIsAhead(p.session, f.session);
      RollingLessIsAhead(p.sequence, f.sequence);
    }
  }

  function AfterAll(f: Filter, ps: seq<Input>): Filter {
    if ps == [] then f else After(AfterAll(f, ps[..|ps| - 1]), ps[|ps| - 1])
  }

  /** The packets of a run that pass, and the filter after it. */
  function Kept(f: Filter, ps: seq<Input>): seq<Input> {
    if ps == [] then []
    else
      var init, last := ps[..|ps| - 1], ps[|ps| - 1];
      Kept(f, init) + if Accepts(AfterAll(f, init), last) then [last] else []
  }

  /** The filter remembers the last packet that passed, and nothing else. */
  lemma {:induction false} RemembersLast(f: Filter, ps: seq<Input>)
    ensures var kept := Kept(f, ps);
            if kept == [] then AfterAll(f, ps) == f
            else
              var last := kept[|kept| - 1];
              last.Parsed? && AfterAll(f, ps) == Filter(last.session, last.sequence, last.timestamp)
    decreases |ps|
  {
    if ps == [] {
    } else {
      RemembersLast(f, ps[..|ps| - 1]);
    }
  }

  /** An arrival close enough to the newest number for 16 bits to tell. */
  predicate InWindow(newest: int, x: int) {
    -32767 <= x - newest <= 32768
  }

  /** Inside the window the 16-bit test is the unbounded "strictly newer" test; one past either edge it is
      wrong. */
  lemma WindowIsTight(f: Filter, newest: int, x: int, timestamp: Word16)
    requires f.sequence == newest % U16
    ensures InWindow(newest, x) ==> (Accepts(f, Carrying(f.session, x, timestamp)) <==> x > newest)
    ensures x == newest - 32768 ==> Accepts(f, Carrying(f.session, x, timestamp))
    ensures x == newest + 32769 ==> !Accepts(f, Carrying(f.session, x, timestamp))
  {
    AcceptsExactly(f, newest, x, timestamp);
  }

  /** A run of one session: arriving logical numbers. */
  function Newest(newest: int, x: int): int {
    if x > newest then x else newest
  }

  predicate AllInWindow(newest: int, xs: seq<int>)
    decreases |xs|
  {
    xs == [] || (InWindow(newest, xs[0]) && AllInWindow(Newest(newest, xs[0]), xs[1..]))
  }

  /** The numbers the unbounded test lets through. */
  function Records(newest: int, xs: seq<int>): seq<int>
    decreases |xs|
  {
    if xs == [] then []
    else (if xs[0] > newest then [xs[0]] else []) + Records(Newest(newest, xs[0]), xs[1..])
  }

  /** The numbers the 16-bit filter lets through. */
  function Passed(f: Filter, xs: seq<int>): seq<int>
    decreases |xs|
  {
    if xs == [] then []
    else
      var p := Carrying(f.session, xs[0], 0);
      (if Accepts(f, p) then [xs[0]] else []) + Passed(After(f, p), xs[1..])
  }

  /** Over every run of a session whose arrivals stay in the window, the 16-bit filter lets through exactly
      the numbers the unbounded one does. */
  lemma {:induction false} FilterRefines(f: Filter, newest: int, xs: seq<int>)
    requires f.sequence == newest % U16 && AllInWindow(newest, xs)
    ensures Passed(f, xs) == Records(newest, xs)
    decreases |xs|
  {
    hide Accepts;
    if xs == [] {
    } else {
      WindowIsTight(f, newest, xs[0], 0);
      FilterRefines(After(f, Carrying(f.session, xs[0], 0)), Newest(newest, xs[0]), xs[1..]);
    }
  }

  /** ... so the accepted numbers strictly increase. */
  lemma {:induction false} RecordsIncrease(newest: int, xs: seq<int>)
    ensures forall i :: 0 <= i < |Records(newest, xs)| ==> newest < Records(newest, xs)[i]
    ensures forall i, j :: 0 <= i < j < |Records(newest, xs)| ==> Records(newest, xs)[i] < Records(newest, xs)[j]
    decreases |xs|
  {
    if xs == [] {
    } else {
      RecordsIncrease(Newest(newest, xs[0]), xs[1..]);
    }
  }
}
