/** The websocket client: every asynchronous operation carries the session number it was started under, and
    any number of completions from earlier sessions may still be on their way. Besides failing, an operation
    can throw: a manager callback, the binding of a new stream to its fixed port, the shutdown of a stream that
    is not connected. Whatever a handler was about to do then does not happen. */
module Websocket {
  import opened Common

  /** An outstanding completion handler with its session number. The write handler is off the main chain. */
  datatype Handler = Connect(n: nat) | Handshake(n: nat) | Read(n: nat) | Close(n: nat) | Write(n: nat)

  /** A call on the manager. */
  datatype Note = Created | Destroyed

  /** `owed` says that a stop failed to tell the manager of the end of a connection, and nobody has since; no
      code reads it. */
  datatype Client = Client(session: nat, stopped: bool, hasStream: bool, queue: seq<string>, pending: seq<Handler>,
                           notes: seq<Note>, owed: bool)

  const INITIAL: Client := Client(0, true, false, [], [], [], false)

  /** How a completion turns out. `Failed`: an error, an unusable message, or a refusal by the manager; `open`
      is what the stream then says of itself, and `throws` whether the manager throws when told of the end.
      `Threw`: the manager threw when told of the connection or handed a message. */
  datatype Outcome = Done | Failed(open: bool, throws: bool) | Threw

  /** `opens` says whether a new stream, if this event makes one, can be opened and bound; `clean` whether the
      stream, if there is one, can be shut down. */
  datatype Event =
    | Start(opens: bool)
    | Stop(clean: bool)
    | Fire(i: nat, outcome: Outcome, opens: bool)
    | Send(message: string)

  predicate Stale(c: Client, n: nat) {
    c.stopped || n != c.session
  }

  /** The manager has been told of a connection and not of its end. */
  predicate Told(c: Client) {
    c.notes != [] && c.notes[|c.notes| - 1] == Created
  }

  function Tell(c: Client, note: Note): Client {
    c.(notes := c.notes + [note], owed := false)
  }

  function Issue(c: Client, h: Handler): Client {
    c.(pending := c.pending + [h])
  }

  /** The new stream replaces the old one only once it has been made. */
  function StartConnection(c: Client, n: nat, opens: bool): Client {
    if Stale(c, n) || !opens then c else Issue(c.(hasStream := true), Connect(n))
  }

  function DoWrite(c: Client, n: nat): Client {
    if Stale(c, n) || !c.hasStream then c else Issue(c, Write(n))
  }

  /** The number moves on before the manager is told, and the next handler is only issued after. */
  function Disconnect(c: Client, n: nat, open: bool, throws: bool, opens: bool): Client {
    if Stale(c, n) then c
    else
      var d := Tell(c.(session := n + 1), Destroyed);
      if throws then d
      else if c.hasStream && open then Issue(d, Close(n + 1))
      else StartConnection(d, n + 1, opens)
  }

  function OnConnection(c: Client, n: nat, o: Outcome, opens: bool): Client {
    if Stale(c, n) then c else if o.Done? then Issue(c, Handshake(n)) else StartConnection(c, n, opens)
  }

  function OnHandshake(c: Client, n: nat, o: Outcome, opens: bool): Client {
    if Stale(c, n) then c
    else match o
      case Failed(open, throws) => Disconnect(c, n, open, throws, opens)
      case Threw => Tell(c, Created)
      case Done =>
        var d := Issue(Tell(c, Created), Read(n));
        if c.queue != [] then DoWrite(d, n) else d
  }

  function OnRead(c: Client, n: nat, o: Outcome, opens: bool): Client {
    if Stale(c, n) then c
    else match o
      case Failed(open, throws) => Disconnect(c, n, open, throws, opens)
      case Threw => c
      case Done => Issue(c, Read(n))
  }

  /** A success pops the queue of messages, whatever session the write belongs to. (The source leaves it
      undefined to pop an empty one, which the second of two writes of the same message would do.) */
  function Popped(c: Client): Client {
    if c.queue == [] then c else c.(queue := c.queue[1..])
  }

  function OnWrite(c: Client, n: nat, o: Outcome, opens: bool): Client {
    if c.stopped then c
    else if o.Done? then
      var d := Popped(c);
      if d.queue != [] then DoWrite(d, n) else d
    else if Stale(c, n) || o.Threw? then c
    else Disconnect(c, n, o.open, o.throws, opens)
  }

  function Handle(c: Client, h: Handler, o: Outcome, opens: bool): Client {
    match h
    case Connect(n) => OnConnection(c, n, o, opens)
    case Handshake(n) => OnHandshake(c, n, o, opens)
    case Read(n) => OnRead(c, n, o, opens)
    case Close(n) => StartConnection(c, n, opens)
    case Write(n) => OnWrite(c, n, o, opens)
  }

  /** Only the handshake and read handlers call the manager before they know how to go on. */
  predicate Enabled(c: Client, e: Event) {
    e.Fire? ==>
      e.i < |c.pending| && (e.outcome.Threw? ==> c.pending[e.i].Handshake? || c.pending[e.i].Read?)
  }

  /** A stop whose shutdown throws gets no further: the stream stays, and the manager is not told. */
  function Stopped(c: Client, clean: bool): Client {
    var d := c.(stopped := true, session := c.session + 1);
    if c.hasStream && !clean then d.(owed := Told(c)) else Tell(d.(hasStream := false), Destroyed)
  }

  function Queued(c: Client, message: string): Client {
    var d := c.(queue := c.queue + [message]);
    if |d.queue| == 1 then DoWrite(d, c.session) else d
  }

  function Step(c: Client, e: Event): Client
    requires Enabled(c, e)
  {
    match e
    case Start(opens) => if c.stopped then StartConnection(c.(stopped := false), c.session, opens) else c
    case Stop(clean) => if c.stopped then c else Stopped(c, clean)
    case Fire(i, o, opens) => Handle(c.(pending := RemoveAt(c.pending, i)), c.pending[i], o, opens)
    case Send(m) => Queued(c, m)
  }

  // ---- Counting current handlers -----------------------------------------------------------

  predicate Current(h: Handler, n: nat) {
    !h.Write? && h.n == n
  }

  function Count(hs: seq<Handler>, n: nat): nat {
    if hs == [] then 0 else (if Current(hs[0], n) then 1 else 0) + Count(hs[1..], n)
  }

  lemma {:induction false} CountAppend(x: seq<Handler>, y: seq<Handler>, n: nat)
    ensures Count(x + y, n) == Count(x, n) + Count(y, n)
  {
    if x == [] {
      assert x + y == y;
    } else {
      assert (x + y)[1..] == x[1..] + y;
      CountAppend(x[1..], y, n);
    }
  }

  lemma CountIssue(hs: seq<Handler>, h: Handler, n: nat)
    ensures Count(hs + [h], n) == Count(hs, n) + if Current(h, n) then 1 else 0
  {
    CountAppend(hs, [h], n);
    assert [h][1..] == [];
  }

  lemma CountWithout(hs: seq<Handler>, i: nat, n: nat)
    requires i < |hs|
    ensures Count(hs, n) == Count(RemoveAt(hs, i), n) + if Current(hs[i], n) then 1 else 0
  {
    assert hs == (hs[..i] + [hs[i]]) + hs[i + 1..];
    CountAppend(hs[..i] + [hs[i]], hs[i + 1..], n);
    CountIssue(hs[..i], hs[i], n);
    CountAppend(hs[..i], hs[i + 1..], n);
  }

  lemma {:induction false} NoneAbove(hs: seq<Handler>, n: nat)
    requires forall h :: h in hs ==> h.n < n
    ensures Count(hs, n) == 0
  {
    if hs == [] {
    } else {
      NoneAbove(hs[1..], n);
    }
  }

  lemma {:induction false} NoneCurrent(hs: seq<Handler>, n: nat)
    requires Count(hs, n) == 0
    ensures forall h :: h in hs ==> !Current(h, n)
  {
    if hs == [] {
    } else {
      NoneCurrent(hs[1..], n);
    }
  }

  // ---- The invariant -----------------------------------------------------------------------

  /** A connection the manager was told of is being read, unless a stop owes it the end. */
  ghost predicate Inv(c: Client) {
    && (forall h :: h in c.pending ==> h.n <= c.session)
    && Count(c.pending, c.session) <= (if c.stopped then 0 else 1)
    && (c.owed ==> Told(c))
    && (c.stopped && Told(c) ==> c.owed)
    && (Told(c) && !c.owed ==> forall h :: h in c.pending && Current(h, c.session) ==> h.Read?)
  }

  /** Exactly one current handler while started. */
  ghost predicate Alive(c: Client) {
    Count(c.pending, c.session) == if c.stopped then 0 else 1
  }

  /** A client between handlers, with no current one in hand: the state in which a handler runs. */
  ghost predicate Vacant(c: Client) {
    Inv(c) && Count(c.pending, c.session) == 0
  }

  lemma StartConnectionKeeps(c: Client, n: nat, opens: bool)
    requires Vacant(c) && (Told(c) ==> c.owed) && !Stale(c, n)
    ensures Inv(StartConnection(c, n, opens)) && (Alive(StartConnection(c, n, opens)) <==> opens)
  {
    CountIssue(c.pending, Connect(n), n);
    NoneCurrent(c.pending, n);
  }

  /** How a disconnect can end without a handler. */
  predicate Cut(c: Client, open: bool, throws: bool, opens: bool) {
    throws || (!(c.hasStream && open) && !opens)
  }

  lemma DisconnectKeeps(c: Client, n: nat, open: bool, throws: bool, opens: bool)
    requires Inv(c) && !Stale(c, n)
    ensures Inv(Disconnect(c, n, open, throws, opens))
    ensures Alive(Disconnect(c, n, open, throws, opens)) <==> !Cut(c, open, throws, opens)
  {
    NoneAbove(c.pending, n + 1);
    var d := Tell(c.(session := n + 1), Destroyed);
    assert Vacant(d) && !Told(d);
    StartConnectionKeeps(d, n + 1, opens);
    CountIssue(c.pending, Close(n + 1), n + 1);
    NoneCurrent(c.pending, n + 1);
  }

  lemma WriteKeeps(c: Client, n: nat)
    requires Inv(c)
    ensures Inv(DoWrite(c, n)) && (Alive(c) <==> Alive(DoWrite(c, n)))
  {
    CountIssue(c.pending, Write(n), c.session);
  }

  /** The queue of messages is beside the point. */
  lemma QueueKeeps(c: Client, queue: seq<string>)
    requires Inv(c)
    ensures Inv(c.(queue := queue)) && (Alive(c) <==> Alive(c.(queue := queue)))
  {
  }

  lemma IssueNextKeeps(c: Client, h: Handler)
    requires Vacant(c) && !c.stopped && (Told(c) ==> c.owed || h.Read?) && !h.Write? && h.n == c.session
    ensures Inv(Issue(c, h)) && Alive(Issue(c, h))
  {
    CountIssue(c.pending, h, c.session);
    NoneCurrent(c.pending, c.session);
  }

  lemma CreateKeeps(c: Client)
    requires Vacant(c) && !c.stopped
    ensures Vacant(Tell(c, Created)) && !Tell(c, Created).owed
  {
    NoneCurrent(c.pending, c.session);
  }

  lemma DisconnectVacant(c: Client, n: nat, o: Outcome, opens: bool)
    requires Vacant(c) && !Stale(c, n)
    ensures Inv(c) && !Alive(c)
    ensures o.Failed? ==>
              && Inv(Disconnect(c, n, o.open, o.throws, opens))
              && (Alive(Disconnect(c, n, o.open, o.throws, opens)) <==> !Cut(c, o.open, o.throws, opens))
  {
    if o.Failed? {
      DisconnectKeeps(c, n, o.open, o.throws, opens);
    }
  }

  /** A current handler ends without issuing its successor: the manager threw, or the stream it needed next
      could not be opened. */
  predicate Breaks(c: Client, h: Handler, o: Outcome, opens: bool) {
    match h
    case Connect(_) => !o.Done? && !opens
    case Close(_) => !opens
    case Write(_) => o.Failed? && Cut(c, o.open, o.throws, opens)
    case _ => o.Threw? || (o.Failed? && Cut(c, o.open, o.throws, opens))
  }

  /** A current handler of the main chain runs with nothing else current, and hands on to exactly one
      successor unless it breaks. */
  lemma ChainKeeps(c: Client, h: Handler, o: Outcome, opens: bool)
    requires Vacant(c) && !h.Write? && h.n == c.session && !c.stopped && (Told(c) ==> h.Read? || c.owed)
    requires o.Threw? ==> h.Handshake? || h.Read?
    ensures Inv(Handle(c, h, o, opens)) && (Alive(Handle(c, h, o, opens)) <==> !Breaks(c, h, o, opens))
  {
    hide Inv, Alive, Cut;
    DisconnectVacant(c, h.n, o, opens);
    match h
    case Connect(n) =>
      StartConnectionKeeps(c, n, opens);
      IssueNextKeeps(c, Handshake(n));
    case Handshake(n) =>
      CreateKeeps(c);
      var d := Tell(c, Created);
      DisconnectVacant(d, n, o, opens);
      IssueNextKeeps(d, Read(n));
      WriteKeeps(Issue(d, Read(n)), n);
    case Read(n) => IssueNextKeeps(c, Read(n));
    case Close(n) => StartConnectionKeeps(c, n, opens);
  }

  /** Stale handlers never reconnect, notify or issue anything: they only disappear, though a stale write that
      succeeds still pops the queue of messages unless the client is stopped. */
  lemma StaleHandlerVanishes(c: Client, i: nat, o: Outcome, opens: bool)
    requires i < |c.pending| && Stale(c, c.pending[i].n) && Enabled(c, Fire(i, o, opens))
    ensures var d := c.(pending := RemoveAt(c.pending, i));
            Step(c, Fire(i, o, opens)) == if c.pending[i].Write? && o.Done? && !c.stopped then Popped(d) else d
  {
  }

  lemma RemoveKeeps(c: Client, i: nat)
    requires Inv(c) && i < |c.pending|
    ensures var d := c.(pending := RemoveAt(c.pending, i));
            && Inv(d)
            && Count(c.pending, c.session) ==
               Count(d.pending, c.session) + if Current(c.pending[i], c.session) then 1 else 0
  {
    CountWithout(c.pending, i, c.session);
    assert forall h :: h in RemoveAt(c.pending, i) ==> h in c.pending;
  }

  /** What leaves a live client without its handler: a start that cannot open its stream, or a current handler
      that breaks. */
  predicate Stalls(c: Client, e: Event)
    requires Enabled(c, e)
  {
    match e
    case Start(opens) => c.stopped && !opens
    case Fire(i, o, opens) => !Stale(c, c.pending[i].n) && Breaks(c, c.pending[i], o, opens)
    case _ => false
  }

  /** What brings a stalled client back: a stop, or a current write that fails and gets to the end of its
      disconnect. */
  predicate Revives(c: Client, e: Event)
    requires Enabled(c, e)
  {
    match e
    case Stop(_) => true
    case Fire(i, o, opens) =>
      !Stale(c, c.pending[i].n) && c.pending[i].Write? && o.Failed? && !Cut(c, o.open, o.throws, opens)
    case _ => false
  }

  lemma OnWriteKeeps(c: Client, n: nat, o: Outcome, opens: bool)
    requires Inv(c)
    ensures Inv(OnWrite(c, n, o, opens))
    ensures var ends := o.Failed? && !Stale(c, n);
            Alive(OnWrite(c, n, o, opens)) <==> if ends then !Cut(c, o.open, o.throws, opens) else Alive(c)
  {
    hide Inv, Alive, Cut;
    if o.Failed? && !Stale(c, n) {
      DisconnectKeeps(c, n, o.open, o.throws, opens);
    } else if o.Done? {
      QueueKeeps(c, Popped(c).queue);
      WriteKeeps(Popped(c), n);
    }
  }

  lemma FireKeeps(c: Client, i: nat, o: Outcome, opens: bool)
    requires Inv(c) && Enabled(c, Fire(i, o, opens))
    ensures var e := Fire(i, o, opens);
            && Inv(Step(c, e))
            && (Alive(Step(c, e)) <==> if Alive(c) then !Stalls(c, e) else Revives(c, e))
  {
    var h, d := c.pending[i], c.(pending := RemoveAt(c.pending, i));
    RemoveKeeps(c, i);
    if h.Write? {
      hide Inv;
      OnWriteKeeps(d, h.n, o, opens);
    } else if Stale(c, h.n) {
      StaleHandlerVanishes(c, i, o, opens);
    } else {
      assert h in c.pending && Current(h, c.session);
      ChainKeeps(d, h, o, opens);
    }
  }

  /** One step, exactly: a live client stays alive unless the step stalls it, and a stalled one stays stalled
      unless the step revives it. */
  lemma StepKeeps(c: Client, e: Event)
    requires Inv(c) && Enabled(c, e)
    ensures Inv(Step(c, e))
    ensures Alive(Step(c, e)) <==> if Alive(c) then !Stalls(c, e) else Revives(c, e)
  {
    match e
    case Fire(i, o, opens) => FireKeeps(c, i, o, opens);
    case Send(m) =>
      QueueKeeps(c, c.queue + [m]);
      WriteKeeps(c.(queue := c.queue + [m]), c.session);
    case Stop(_) => NoneAbove(c.pending, c.session + 1);
    case Start(opens) =>
      if c.stopped {
        var d := c.(stopped := false);
        NoneCurrent(c.pending, c.session);
        StartConnectionKeeps(d, c.session, opens);
      }
  }

  // ---- What the manager is told ------------------------------------------------------------

  /** Between two Create notifications there is a Destroy. */
  predicate Alternates(notes: seq<Note>) {
    forall i :: 0 <= i < |notes| - 1 ==> notes[i] == Created ==> notes[i + 1] == Destroyed
  }

  /** A handshake tells the manager of a new connection while a stop still owes it the end of the last. */
  predicate Repeats(c: Client, e: Event)
    requires Enabled(c, e)
  {
    && e.Fire? && c.pending[e.i].Handshake? && !Stale(c, c.pending[e.i].n)
    && !e.outcome.Failed? && c.owed
  }

  lemma TellAlternates(c: Client, note: Note)
    ensures Alternates(Tell(c, note).notes) <==> Alternates(c.notes) && !(note == Created && Told(c))
  {
    var t := c.notes + [note];
    assert t[|c.notes|] == note && forall i :: 0 <= i < |c.notes| ==> t[i] == c.notes[i];
    if Alternates(c.notes) && !(note == Created && Told(c)) {
      forall i | 0 <= i < |t| - 1 && t[i] == Created
        ensures t[i + 1] == Destroyed
      {
        assert i < |c.notes| - 1 || Told(c);
      }
    }
    if Alternates(t) {
      forall i | 0 <= i < |c.notes| - 1 && c.notes[i] == Created
        ensures c.notes[i + 1] == Destroyed
      {
        assert t[i] == Created;
      }
      assert Told(c) ==> t[|c.notes| - 1] == Created;
    }
  }

  /** One step, exactly: the notifications go on alternating unless the step repeats a Create. */
  lemma StepAlternates(c: Client, e: Event)
    requires Inv(c) && Enabled(c, e)
    ensures Alternates(Step(c, e).notes) <==> Alternates(c.notes) && !Repeats(c, e)
  {
    hide Alternates;
    TellAlternates(c, Created);
    TellAlternates(c, Destroyed);
    if e.Fire? && c.pending[e.i].Handshake? && !Stale(c, c.pending[e.i].n) {
      assert Current(c.pending[e.i], c.session) && c.pending[e.i] in c.pending;
    }
  }

  // ---- Whole runs --------------------------------------------------------------------------

  predicate Legal(c: Client, es: seq<Event>)
    decreases |es|
  {
    es == [] || (Enabled(c, es[0]) && Legal(Step(c, es[0]), es[1..]))
  }

  function Run(c: Client, es: seq<Event>): Client
    requires Legal(c, es)
    decreases |es|
  {
    if es == [] then c else Run(Step(c, es[0]), es[1..])
  }

  /** Every state of the run, the first included, has exactly one current handler while started. */
  ghost predicate AlwaysAlive(c: Client, es: seq<Event>)
    requires Legal(c, es)
    decreases |es|
  {
    Alive(c) && (es == [] || AlwaysAlive(Step(c, es[0]), es[1..]))
  }

  predicate NeverStalls(c: Client, es: seq<Event>)
    requires Legal(c, es)
    decreases |es|
  {
    es == [] || (!Stalls(c, es[0]) && NeverStalls(Step(c, es[0]), es[1..]))
  }

  /** Whether the client is alive at the end, told from the events alone: each one that stalls it turns this
      off, each one that revives it turns it back on. */
  predicate EndsAlive(c: Client, es: seq<Event>, alive: bool)
    requires Legal(c, es)
    decreases |es|
  {
    if es == [] then alive
    else EndsAlive(Step(c, es[0]), es[1..], if alive then !Stalls(c, es[0]) else Revives(c, es[0]))
  }

  predicate NeverRepeats(c: Client, es: seq<Event>)
    requires Legal(c, es)
    decreases |es|
  {
    es == [] || (!Repeats(c, es[0]) && NeverRepeats(Step(c, es[0]), es[1..]))
  }

  lemma {:induction false} RunExactly(c: Client, es: seq<Event>)
    requires Inv(c) && Legal(c, es)
    ensures Inv(Run(c, es))
    ensures Alive(Run(c, es)) <==> EndsAlive(c, es, Alive(c))
    ensures Alive(c) ==> (AlwaysAlive(c, es) <==> NeverStalls(c, es))
    ensures Alternates(Run(c, es).notes) <==> Alternates(c.notes) && NeverRepeats(c, es)
    decreases |es|
  {
    hide Inv, Alive, Step, Enabled, Stalls, Revives, Repeats, Alternates;
    if es == [] {
    } else {
      StepKeeps(c, es[0]);
      StepAlternates(c, es[0]);
      RunExactly(Step(c, es[0]), es[1..]);
    }
  }

  /** Generation safety: in every run at most one outstanding connect, handshake, read or close handler
      carries the current session number, and none while stopped; there is exactly one while started,
      throughout the run, if and only if no event stalls the client; and at the end there is one if and only
      if the last event to stall it, if any, was followed by one that revives it. */
  lemma GenerationSafety(es: seq<Event>)
    requires Legal(INITIAL, es)
    ensures var c := Run(INITIAL, es);
            && Count(c.pending, c.session) <= (if c.stopped then 0 else 1)
            && (Count(c.pending, c.session) == (if c.stopped then 0 else 1) <==> EndsAlive(INITIAL, es, true))
            && (forall h :: h in c.pending ==> h.n <= c.session)
    ensures AlwaysAlive(INITIAL, es) <==> NeverStalls(INITIAL, es)
  {
    RunExactly(INITIAL, es);
  }

  /** Every stop shuts its stream down cleanly. */
  predicate CleanStops(es: seq<Event>) {
    forall e :: e in es && e.Stop? ==> e.clean
  }

  lemma {:induction false} CleanOwesNothing(c: Client, es: seq<Event>)
    requires Legal(c, es) && CleanStops(es) && !c.owed
    ensures NeverRepeats(c, es)
    decreases |es|
  {
    hide Enabled;
    if es == [] {
    } else {
      assert es[0] in es;
      CleanOwesNothing(Step(c, es[0]), es[1..]);
    }
  }

  /** Two Create notifications are separated by a Destroy, throughout a run, if and only if no handshake
      succeeds while a stop still owes the manager the end of a connection; so always if stops are clean. */
  lemma CreatesAreSeparated(es: seq<Event>)
    requires Legal(INITIAL, es)
    ensures Alternates(Run(INITIAL, es).notes) <==> NeverRepeats(INITIAL, es)
    ensures CleanStops(es) ==> Alternates(Run(INITIAL, es).notes)
  {
    RunExactly(INITIAL, es);
    if CleanStops(es) {
      CleanOwesNothing(INITIAL, es);
    }
  }

  // ---- When messages are written -----------------------------------------------------------

  /** The event goes on to a write: a handshake with messages waiting, the first message to wait, or a write
      that leaves more of them. */
  predicate WritesNext(c: Client, e: Event)
    requires Enabled(c, e)
  {
    c.hasStream && match e
    case Send(_) => !c.stopped && c.queue == []
    case Fire(i, o, _) =>
      && !Stale(c, c.pending[i].n) && o.Done?
      && ((c.pending[i].Handshake? && c.queue != []) || (c.pending[i].Write? && |c.queue| > 1))
    case _ => false
  }

  lemma RemoveOne(hs: seq<Handler>, i: nat)
    requires i < |hs|
    ensures multiset(hs) == multiset(RemoveAt(hs, i)) + multiset{hs[i]}
  {
    assert hs == hs[..i] + [hs[i]] + hs[i + 1..];
  }

  /** The writes outstanding under a number. */
  ghost function Writes(c: Client, n: nat): nat {
    multiset(c.pending)[Write(n)]
  }

  lemma IssueWrites(c: Client, h: Handler, n: nat)
    ensures Writes(Issue(c, h), n) == Writes(c, n) + if h == Write(n) then 1 else 0
  {
  }

  lemma SamePending(c: Client, d: Client, n: nat)
    requires c.pending == d.pending
    ensures Writes(c, n) == Writes(d, n)
  {
  }

  lemma OthersWriteNothing(c: Client, k: nat, n: nat, o: Outcome, opens: bool)
    ensures Writes(StartConnection(c, k, opens), n) == Writes(c, n)
    ensures o.Failed? ==> Writes(Disconnect(c, k, o.open, o.throws, opens), n) == Writes(c, n)
  {
    hide Writes;
    var d := Tell(c.(session := k + 1), Destroyed);
    assert Writes(d, n) == Writes(c, n) by { SamePending(d, c, n); }
    IssueWrites(c.(hasStream := true), Connect(k), n);
    IssueWrites(d.(hasStream := true), Connect(k + 1), n);
    IssueWrites(d, Close(k + 1), n);
    SamePending(c.(hasStream := true), c, n);
    SamePending(d.(hasStream := true), d, n);
  }

  lemma DoWriteWrites(c: Client, k: nat, n: nat)
    ensures Writes(DoWrite(c, k), n) == Writes(c, n) + if !Stale(c, k) && c.hasStream && k == n then 1 else 0
  {
    hide Writes;
    IssueWrites(c, Write(k), n);
  }

  lemma HandleWrites(c: Client, h: Handler, o: Outcome, opens: bool, n: nat)
    requires o.Threw? ==> h.Handshake? || h.Read?
    ensures var next := c.hasStream && !Stale(c, h.n) && o.Done? &&
                        ((h.Handshake? && c.queue != []) || (h.Write? && |c.queue| > 1));
            Writes(Handle(c, h, o, opens), n) == Writes(c, n) + if next && n == h.n then 1 else 0
  {
    hide Writes, StartConnection, Disconnect, DoWrite;
    OthersWriteNothing(c, h.n, n, o, opens);
    match h
    case Connect(k) => IssueWrites(c, Handshake(k), n);
    case Handshake(k) =>
      var d := Tell(c, Created);
      SamePending(d, c, n);
      IssueWrites(d, Read(k), n);
      DoWriteWrites(Issue(d, Read(k)), k, n);
    case Read(k) => IssueWrites(c, Read(k), n);
    case Close(k) =>
    case Write(k) =>
      SamePending(Popped(c), c, n);
      DoWriteWrites(Popped(c), k, n);
  }

  lemma RemoveWrites(c: Client, d: Client, i: nat, n: nat)
    requires i < |c.pending| && d.pending == RemoveAt(c.pending, i)
    ensures Writes(c, n) == Writes(d, n) + if c.pending[i] == Write(n) then 1 else 0
  {
    RemoveOne(c.pending, i);
  }

  /** One step, exactly: the writes outstanding under each number are those there were, less the one completed,
      and one more under the current number if the event goes on to a write. */
  lemma WriteIssuedIff(c: Client, e: Event, n: nat)
    requires Enabled(c, e)
    ensures Writes(Step(c, e), n) ==
            Writes(c, n)
            - (if e.Fire? && c.pending[e.i] == Write(n) then 1 else 0)
            + (if WritesNext(c, e) && n == c.session then 1 else 0)
  {
    hide Handle, DoWrite, StartConnection, Writes;
    match e
    case Fire(i, o, opens) =>
      var d := c.(pending := RemoveAt(c.pending, i));
      RemoveWrites(c, d, i, n);
      HandleWrites(d, c.pending[i], o, opens, n);
    case Send(m) =>
      SamePending(c.(queue := c.queue + [m]), c, n);
      DoWriteWrites(c.(queue := c.queue + [m]), c.session, n);
    case Stop(clean) => SamePending(Stopped(c, clean), c, n);
    case Start(opens) =>
      SamePending(c.(stopped := false), c, n);
      OthersWriteNothing(c.(stopped := false), c.session, n, Done, opens);
  }

  /** While a connection is being read and messages wait, one of them is being written. Whenever a current
      handler of the main chain is outstanding there is a stream. */
  ghost predicate Flows(c: Client) {
    && (forall h :: h in c.pending && Current(h, c.session) ==> c.hasStream)
    && (Read(c.session) in c.pending && c.queue != [] ==> Write(c.session) in c.pending)
  }

  lemma StillThere(hs: seq<Handler>, i: nat, h: Handler)
    requires i < |hs|
    ensures h in RemoveAt(hs, i) ==> h in hs
    ensures h in hs && h != hs[i] ==> h in RemoveAt(hs, i)
  {
    if h in hs && h != hs[i] {
      var j :| 0 <= j < |hs| && hs[j] == h;
      assert RemoveAt(hs, i)[if j < i then j else j - 1] == h;
    }
  }

  lemma OnlyOneCurrent(c: Client, i: nat)
    requires Inv(c) && i < |c.pending| && Current(c.pending[i], c.session)
    ensures forall h :: h in RemoveAt(c.pending, i) ==> !Current(h, c.session)
  {
    CountWithout(c.pending, i, c.session);
    NoneCurrent(RemoveAt(c.pending, i), c.session);
  }

  /** Nothing current is outstanding: whatever is issued next flows, if it is no read, or a write comes along. */
  lemma NothingFlows(c: Client)
    requires forall h :: h in c.pending ==> !Current(h, c.session)
    ensures Flows(c)
    ensures forall h: Handler :: c.hasStream && !h.Read? ==> Flows(Issue(c, h))
    ensures c.hasStream && c.queue == [] ==> Flows(Issue(c, Read(c.session)))
    ensures c.hasStream ==> Flows(Issue(Issue(c, Read(c.session)), Write(c.session)))
  {
    forall h, g
      ensures g in Issue(c, h).pending <==> g in c.pending || g == h
    {
      assert g == h ==> Issue(c, h).pending[|c.pending|] == g;
    }
  }

  lemma ConnectFlows(c: Client, n: nat, opens: bool)
    requires (forall h :: h in c.pending ==> !Current(h, c.session)) && !Stale(c, n)
    ensures Flows(StartConnection(c, n, opens))
  {
    hide Flows;
    NothingFlows(c);
    NothingFlows(c.(hasStream := true));
  }

  lemma DisconnectFlows(c: Client, n: nat, open: bool, throws: bool, opens: bool)
    requires Inv(c) && !Stale(c, n)
    ensures Flows(Disconnect(c, n, open, throws, opens))
  {
    hide Flows;
    var d := Tell(c.(session := n + 1), Destroyed);
    assert forall h :: h in d.pending ==> !Current(h, d.session);
    NothingFlows(d);
    ConnectFlows(d, n + 1, opens);
  }

  lemma ReadAgainFlows(c: Client)
    requires (forall h :: h in c.pending ==> !Current(h, c.session)) && c.hasStream
    requires c.queue != [] ==> Write(c.session) in c.pending
    ensures Flows(Issue(c, Read(c.session)))
  {
  }

  /** A current handler of the main chain, taken out, runs with nothing else current. */
  lemma ChainFlows(c: Client, h: Handler, o: Outcome, opens: bool)
    requires Inv(c) && forall g :: g in c.pending ==> !Current(g, c.session)
    requires Current(h, c.session) && !c.stopped && c.hasStream && (o.Threw? ==> h.Handshake? || h.Read?)
    requires h.Read? && c.queue != [] ==> Write(c.session) in c.pending
    ensures Flows(Handle(c, h, o, opens))
  {
    hide Inv, Flows;
    NothingFlows(c);
    if o.Failed? {
      DisconnectFlows(c, h.n, o.open, o.throws, opens);
    }
    match h
    case Connect(n) => ConnectFlows(c, n, opens);
    case Handshake(n) => NothingFlows(Tell(c, Created));
    case Read(n) => ReadAgainFlows(c);
    case Close(n) => ConnectFlows(c, n, opens);
  }

  /** A write off the main chain is completed. */
  lemma OnWriteFlows(c: Client, d: Client, i: nat, o: Outcome, opens: bool)
    requires Inv(c) && Flows(c) && i < |c.pending| && c.pending[i].Write? && !o.Threw?
    requires d == c.(pending := RemoveAt(c.pending, i)) && Inv(d)
    ensures Flows(OnWrite(d, c.pending[i].n, o, opens))
  {
    var n := c.pending[i].n;
    forall g
      ensures g in d.pending ==> g in c.pending
      ensures g in c.pending && g != c.pending[i] ==> g in d.pending
    {
      StillThere(c.pending, i, g);
    }
    if c.stopped {
      NoneCurrent(c.pending, c.session);
    } else if o.Failed? && n == c.session {
      DisconnectFlows(d, n, o.open, o.throws, opens);
    }
  }

  /** Losing a handler of the main chain. */
  lemma LostFlows(c: Client, i: nat)
    requires Inv(c) && Flows(c) && i < |c.pending| && !c.pending[i].Write?
    ensures Flows(c.(pending := RemoveAt(c.pending, i)))
  {
    forall g
      ensures g in RemoveAt(c.pending, i) ==> g in c.pending
      ensures g in c.pending && g != c.pending[i] ==> g in RemoveAt(c.pending, i)
    {
      StillThere(c.pending, i, g);
    }
  }

  lemma FireFlows(c: Client, i: nat, o: Outcome, opens: bool)
    requires Inv(c) && Flows(c) && Enabled(c, Fire(i, o, opens))
    ensures Flows(Step(c, Fire(i, o, opens)))
  {
    var h, d := c.pending[i], c.(pending := RemoveAt(c.pending, i));
    RemoveKeeps(c, i);
    if h.Write? {
      hide Inv, Flows, OnWrite;
      OnWriteFlows(c, d, i, o, opens);
    } else if Stale(c, h.n) {
      StaleHandlerVanishes(c, i, o, opens);
      LostFlows(c, i);
    } else {
      OnlyOneCurrent(c, i);
      assert h in c.pending && Current(h, c.session);
      StillThere(c.pending, i, Write(c.session));
      hide Inv, Handle;
      ChainFlows(d, h, o, opens);
    }
  }

  lemma SendFlows(c: Client, m: string)
    requires Inv(c) && Flows(c)
    ensures Flows(Queued(c, m))
  {
    if c.stopped {
      NoneCurrent(c.pending, c.session);
    }
    assert Write(c.session) in Issue(c, Write(c.session)).pending;
    assert forall h :: h in Issue(c, Write(c.session)).pending <==> h in c.pending || h == Write(c.session);
  }

  lemma StepFlows(c: Client, e: Event)
    requires Inv(c) && Flows(c) && Enabled(c, e)
    ensures Flows(Step(c, e))
  {
    match e
    case Fire(i, o, opens) => FireFlows(c, i, o, opens);
    case Send(m) => SendFlows(c, m);
    case Stop(_) =>
    case Start(opens) =>
      if c.stopped {
        NoneCurrent(c.pending, c.session);
        ConnectFlows(c.(stopped := false), c.session, opens);
      }
  }

  lemma {:induction false} RunFlows(c: Client, es: seq<Event>)
    requires Inv(c) && Flows(c) && Legal(c, es)
    ensures Flows(Run(c, es))
    decreases |es|
  {
    hide Inv, Flows, Step, Enabled;
    if es == [] {
    } else {
      StepKeeps(c, es[0]);
      StepFlows(c, es[0]);
      RunFlows(Step(c, es[0]), es[1..]);
    }
  }

  /** Messages never wait for nothing: in every run, while the current connection is being read and messages
      wait, a write under its number is outstanding. */
  lemma MessagesFlow(es: seq<Event>)
    requires Legal(INITIAL, es)
    ensures var c := Run(INITIAL, es);
            Read(c.session) in c.pending && c.queue != [] ==> Write(c.session) in c.pending
  {
    RunFlows(INITIAL, es);
  }

  // ---- Messages and streams ----------------------------------------------------------------

  /** The message an event brings, and the one a successful write takes from the queue, if any. */
  function Brought(e: Event): seq<string> {
    if e.Send? then [e.message] else []
  }

  function Taken(c: Client, e: Event): seq<string>
    requires Enabled(c, e)
  {
    if e.Fire? && c.pending[e.i].Write? && e.outcome.Done? && !c.stopped && c.queue != [] then [c.queue[0]] else []
  }

  lemma HandleQueues(c: Client, h: Handler, o: Outcome, opens: bool)
    ensures Handle(c, h, o, opens).queue ==
            if h.Write? && o.Done? && !c.stopped && c.queue != [] then c.queue[1..] else c.queue
  {
  }

  lemma StepQueues(c: Client, e: Event)
    requires Enabled(c, e)
    ensures Taken(c, e) + Step(c, e).queue == c.queue + Brought(e)
  {
    hide Handle;
    match e
    case Fire(i, o, opens) => HandleQueues(c.(pending := RemoveAt(c.pending, i)), c.pending[i], o, opens);
    case _ =>
  }

  function AllBrought(es: seq<Event>): seq<string> {
    if es == [] then [] else Brought(es[0]) + AllBrought(es[1..])
  }

  function AllTaken(c: Client, es: seq<Event>): seq<string>
    requires Legal(c, es)
    decreases |es|
  {
    if es == [] then [] else Taken(c, es[0]) + AllTaken(Step(c, es[0]), es[1..])
  }

  /** The queue of messages is first in, first out: over every run, what successful writes took followed by what
      still waits is what waited at first followed by what was sent. */
  lemma {:induction false} MessagesInOrder(c: Client, es: seq<Event>)
    requires Legal(c, es)
    ensures AllTaken(c, es) + Run(c, es).queue == c.queue + AllBrought(es)
    decreases |es|
  {
    hide Step, Enabled, Brought, Taken;
    if es == [] {
      assert c.queue + [] == [] + c.queue;
    } else {
      var e, d, rest := es[0], Step(c, es[0]), es[1..];
      MessagesInOrder(d, rest);
      StepQueues(c, e);
      Chain(Taken(c, e), d.queue, c.queue, Brought(e), AllTaken(d, rest), Run(d, rest).queue, AllBrought(rest));
    }
  }

  /** The event issues a connect handler under what is then the current number. */
  predicate IssuesConnect(c: Client, e: Event)
    requires Enabled(c, e)
  {
    var kept := if e.Fire? then RemoveAt(c.pending, e.i) else c.pending;
    Step(c, e).pending == kept + [Connect(Step(c, e).session)]
  }

  lemma LongerDiffers(hs: seq<Handler>, gs: seq<Handler>)
    ensures forall h :: gs == hs + [h] ==> |gs| == |hs| + 1 && gs[|hs|] == h
  {
  }

  lemma HandleStream(c: Client, h: Handler, o: Outcome, opens: bool)
    ensures var d := Handle(c, h, o, opens);
            d.hasStream <==> c.hasStream || d.pending == c.pending + [Connect(d.session)]
  {
    LongerDiffers(c.pending, Handle(c, h, o, opens).pending);
  }

  /** The client has a stream from the connect that made it until a stop that shuts it down: such a stop leaves
      it none, any other event leaves it one exactly if it had one or issues a connect now. */
  lemma StreamIff(c: Client, e: Event)
    requires Enabled(c, e)
    ensures Step(c, e).hasStream <==>
            if e.Stop? && e.clean && !c.stopped then false else c.hasStream || IssuesConnect(c, e)
  {
    hide Handle;
    match e
    case Fire(i, o, opens) => HandleStream(c.(pending := RemoveAt(c.pending, i)), c.pending[i], o, opens);
    case _ => LongerDiffers(c.pending, Step(c, e).pending);
  }

  // ---- Runs that go wrong ------------------------------------------------------------------

  lemma RunOne(c: Client, e: Event, rest: seq<Event>)
    requires Enabled(c, e) && Legal(Step(c, e), rest)
    ensures Legal(c, [e] + rest) && Run(c, [e] + rest) == Run(Step(c, e), rest)
  {
    assert ([e] + rest)[1..] == rest;
  }

  /** The run up to the first message of a session. */
  const CONNECTED: Client := Client(0, false, true, [], [Read(0)], [Created], false)

  lemma Connects(rest: seq<Event>)
    requires Legal(CONNECTED, rest)
    ensures var es := [Start(true)] + ([Fire(0, Done, true)] + ([Fire(0, Done, true)] + rest));
            Legal(INITIAL, es) && Run(INITIAL, es) == Run(CONNECTED, rest)
  {
    var c1 := Step(INITIAL, Start(true));
    var c2 := Step(c1, Fire(0, Done, true));
    var c3 := Step(c2, Fire(0, Done, true));
    assert c1.pending == [Connect(0)] && c2.pending == [Handshake(0)] && c3 == CONNECTED;
    RunOne(c2, Fire(0, Done, true), rest);
    RunOne(c1, Fire(0, Done, true), [Fire(0, Done, true)] + rest);
    RunOne(INITIAL, Start(true), [Fire(0, Done, true)] + ([Fire(0, Done, true)] + rest));
  }

  /** A manager that throws while reading leaves the client started with no handler at all. */
  lemma ThrowingManagerStalls()
    ensures exists es :: Legal(INITIAL, es) && var c := Run(INITIAL, es); !c.stopped && c.pending == [] && Told(c)
  {
    var c := Step(CONNECTED, Fire(0, Threw, true));
    assert c.pending == [] && Legal(c, []) && Run(c, []) == c;
    RunOne(CONNECTED, Fire(0, Threw, true), []);
    Connects([Fire(0, Threw, true)] + []);
  }

  /** So does one refused connect when the new stream cannot be bound: no manager callback was involved. */
  lemma BusyPortStalls()
    ensures exists es :: Legal(INITIAL, es) && var c := Run(INITIAL, es); !c.stopped && c.pending == [] && c.notes == []
  {
    var c1 := Step(INITIAL, Start(true));
    var e := Fire(0, Failed(false, false), false);
    assert c1.pending == [Connect(0)];
    var c2 := Step(c1, e);
    assert c2.pending == [] && Legal(c2, []) && Run(c2, []) == c2;
    RunOne(c1, e, []);
    RunOne(INITIAL, Start(true), [e] + []);
  }

  /** A stop whose shutdown throws, and a new start: the manager is told of two connections in a row. */
  lemma UncleanStopRepeats()
    ensures exists es :: Legal(INITIAL, es) && Run(INITIAL, es).notes == [Created, Created]
  {
    var again := [Start(true), Fire(1, Done, true), Fire(1, Done, true)];
    var c1 := Step(CONNECTED, Stop(false));
    var c2 := Step(c1, Start(true));
    var c3 := Step(c2, Fire(1, Done, true));
    var c4 := Step(c3, Fire(1, Done, true));
    assert c2.pending == [Read(0), Connect(1)] && c3.pending == [Read(0), Handshake(1)];
    assert Legal(c4, []) && Run(c4, []) == c4;
    RunOne(c3, Fire(1, Done, true), []);
    RunOne(c2, Fire(1, Done, true), [Fire(1, Done, true)] + []);
    RunOne(c1, Start(true), [Fire(1, Done, true)] + ([Fire(1, Done, true)] + []));
    RunOne(CONNECTED, Stop(false), [Start(true)] + ([Fire(1, Done, true)] + ([Fire(1, Done, true)] + [])));
    Connects([Stop(false)] + ([Start(true)] + ([Fire(1, Done, true)] + ([Fire(1, Done, true)] + []))));
  }

  // ---- The client object -------------------------------------------------------------------

  class WebsocketClient {
    var sessionNumber: nat
    var isStopped: bool
    var hasStream: bool
    var sendQueue: seq<string>
    var pending: seq<Handler>
    var notes: seq<Note>
    ghost var owed: bool

    ghost function View(): Client
      reads this
    {
      Client(sessionNumber, isStopped, hasStream, sendQueue, pending, notes, owed)
    }

    constructor ()
      ensures View() == INITIAL
    {
      sessionNumber, isStopped, hasStream, sendQueue, pending, notes, owed := 0, true, false, [], [], [], false;
    }

    method NotifyManager(note: Note)
      modifies this`notes, this`owed
      ensures View() == Tell(old(View()), note)
    {
      notes, owed := notes + [note], false;
    }

    /** With `opens` false the constructor of the stream throws, out of this method and its callers. */
    method OpenConnection(n: nat, opens: bool)
      modifies this
      ensures View() == StartConnection(old(View()), n, opens)
    {
      if isStopped || n != sessionNumber || !opens {
        return;
      }
      hasStream := true;
      pending := pending + [Connect(n)];
    }

    method Start(opens: bool)
      modifies this
      ensures View() == Step(old(View()), Event.Start(opens))
    {
      if !isStopped {
        return;
      }
      isStopped := false;
      OpenConnection(sessionNumber, opens);
    }

    /** The posted half of `Stop` runs before `Stop` returns. */
    method Stop(clean: bool)
      modifies this
      ensures View() == Step(old(View()), Event.Stop(clean))
    {
      if isStopped {
        return;
      }
      isStopped := true;
      sessionNumber := sessionNumber + 1;
      if hasStream {
        if !clean {
          owed := Told(View());
          return;
        }
        hasStream := false;
      }
      NotifyManager(Destroyed);
    }

    method CloseConnection(n: nat, open: bool, throws: bool, opens: bool)
      modifies this
      ensures View() == Disconnect(old(View()), n, open, throws, opens)
    {
      if isStopped || n != sessionNumber {
        return;
      }
      sessionNumber := sessionNumber + 1;
      NotifyManager(Destroyed);
      if throws {
        return;
      }
      if hasStream && open {
        pending := pending + [Close(sessionNumber)];
      } else {
        OpenConnection(sessionNumber, opens);
      }
    }

    method WriteFront(n: nat)
      modifies this
      ensures View() == DoWrite(old(View()), n)
    {
      if isStopped || n != sessionNumber {
        return;
      }
      if hasStream {
        pending := pending + [Write(n)];
      }
    }

    method QueueMessage(message: string)
      modifies this
      ensures View() == Step(old(View()), Send(message))
    {
      sendQueue := sendQueue + [message];
      if |sendQueue| == 1 {
        WriteFront(sessionNumber);
      }
    }

    method CompleteWrite(n: nat, o: Outcome, opens: bool)
      modifies this
      ensures View() == OnWrite(old(View()), n, o, opens)
    {
      if isStopped {
        return;
      }
      if o.Done? {
        if sendQueue != [] {
          sendQueue := sendQueue[1..];
        }
        if n == sessionNumber && sendQueue != [] {
          WriteFront(n);
        }
        return;
      }
      if n == sessionNumber && o.Failed? {
        CloseConnection(n, o.open, o.throws, opens);
      }
    }

    /** The completion of outstanding handler `i`. */
    method Complete(i: nat, o: Outcome, opens: bool)
      requires Enabled(View(), Fire(i, o, opens))
      modifies this
      ensures View() == Step(old(View()), Fire(i, o, opens))
    {
      var h := pending[i];
      pending := RemoveAt(pending, i);
      if h.Write? {
        CompleteWrite(h.n, o, opens);
        return;
      }
      if isStopped || h.n != sessionNumber {
        return;
      }
      match h
      case Connect(n) =>
        if o.Done? {
          pending := pending + [Handshake(n)];
        } else {
          OpenConnection(n, opens);
        }
      case Handshake(n) =>
        if o.Failed? {
          CloseConnection(n, o.open, o.throws, opens);
          return;
        }
        NotifyManager(Created);
        if o.Done? {
          pending := pending + [Read(n)];
          if sendQueue != [] {
            WriteFront(n);
          }
        }
      case Read(n) =>
        if o.Failed? {
          CloseConnection(n, o.open, o.throws, opens);
        } else if o.Done? {
          pending := pending + [Read(n)];
        }
      case Close(n) => OpenConnection(n, opens);
    }
  }
}
