/** The headset's button: debounced pushes and holds, decided at each poll from the time since the last
    change of state. */
module Button {
  datatype Action = NullAction | SinglePush | SingleHold
  datatype Mode = Open | Debounced | Pressed | Held

  /** Times are in ticks of the clock. */
  datatype Timing = Timing(debounce: int, hold: int)

  datatype State = State(mode: Mode, changed: int)

  datatype Poll = Poll(now: int, pressed: bool)

  function ActionOf(s: State, t: Timing, p: Poll): Action {
    if s.mode == Open && p.pressed then SinglePush
    else if s.mode == Pressed && p.now - s.changed > t.hold then SingleHold
    else NullAction
  }

  function Next(s: State, t: Timing, p: Poll): State {
    var elapsed := p.now - s.changed;
    match s.mode
    case Open => if p.pressed then State(Debounced, p.now) else s
    case Debounced => if elapsed > t.debounce then State(if p.pressed then Pressed else Open, p.now) else s
    case Pressed =>
      if elapsed > t.hold then State(Held, p.now) else if !p.pressed then State(Open, p.now) else s
    case Held => if !p.pressed then State(Open, p.now) else s
  }

  class ButtonDevice {
    const timing: Timing
    var mode: Mode
    var lastStateChange: int

    ghost function View(): State
      reads this
    {
      State(mode, lastStateChange)
    }

    constructor (debounce: int, hold: int, epoch: int)
      ensures timing == Timing(debounce, hold) && View() == State(Open, epoch)
    {
      timing := Timing(debounce, hold);
      mode, lastStateChange := Open, epoch;
    }

    method TransitionState(mode: Mode, now: int)
      modifies this
      ensures View() == State(mode, now)
    {
      this.mode := mode;
      lastStateChange := now;
    }

    method UpdateButtonState(pressed: bool, now: int) returns (action: Action)
      modifies this
      ensures View() == Next(old(View()), timing, Poll(now, pressed))
      ensures action == ActionOf(old(View()), timing, Poll(now, pressed))
    {
      var elapsed := now - lastStateChange;
      match mode {
        case Open =>
          if pressed {
            TransitionState(Debounced, now);
            return SinglePush;
          }
        case Debounced =>
          if elapsed > timing.debounce {
            TransitionState(if pressed then Pressed else Open, now);
          }
        case Pressed =>
          if elapsed > timing.hold {
            TransitionState(Held, now);
            return SingleHold;
          }
          if !pressed {
            TransitionState(Open, now);
          }
        case Held =>
          if !pressed {
            TransitionState(Open, now);
          }
      }
      return NullAction;
    }

    method Reset(now: int)
      modifies this
      ensures View() == State(Open, now)
    {
      TransitionState(Open, now);
    }
  }

  // ---- Traces ------------------------------------------------------------------------------

  /** An action that was reported, and when. */
  datatype Event = Event(at: int, action: Action)

  ghost predicate Monotone(ps: seq<Poll>) {
    forall i, j :: 0 <= i < j < |ps| ==> ps[i].now <= ps[j].now
  }

  function After(s: State, t: Timing, ps: seq<Poll>): State {
    if ps == [] then s else Next(After(s, t, ps[..|ps| - 1]), t, ps[|ps| - 1])
  }

  /** The events of a trace of polls. */
  function Events(s: State, t: Timing, ps: seq<Poll>): seq<Event> {
    if ps == [] then []
    else
      var init, last := ps[..|ps| - 1], ps[|ps| - 1];
      var action := ActionOf(After(s, t, init), t, last);
      Events(s, t, init) + (if action == NullAction then [] else [Event(last.now, action)])
  }

  /** Each hold directly follows a push, more than debounce + hold later; each push comes more than the
      debounce time after the push before it. */
  ghost predicate WellTimed(es: seq<Event>, t: Timing) {
    && (forall i :: 0 <= i < |es| ==> es[i].action != NullAction)
    && (forall i :: 0 <= i < |es| && es[i].action == SingleHold ==>
          i > 0 && es[i - 1].action == SinglePush && es[i].at - es[i - 1].at > t.debounce + t.hold)
    && (forall i, j :: 0 <= i < j < |es| && es[i].action == es[j].action == SinglePush ==>
          es[j].at - es[i].at > t.debounce)
  }

  /** All pushes are more than the debounce time old. */
  ghost predicate Settled(es: seq<Event>, t: Timing, now: int) {
    forall i :: 0 <= i < |es| && es[i].action == SinglePush ==> now - es[i].at > t.debounce
  }

  /** What the state remembers of the events so far. `now` is the time of the last poll. */
  ghost predicate Remembers(s: State, t: Timing, es: seq<Event>, now: int) {
    && (forall i :: 0 <= i < |es| ==> es[i].at <= now)
    && match s.mode
       case Open => Settled(es, t, now)
       case Debounced => s.changed <= now && es != [] && es[|es| - 1] == Event(s.changed, SinglePush)
       case Pressed =>
         && s.changed <= now && es != [] && es[|es| - 1].action == SinglePush
         && Settled(es, t, s.changed)
       case Held => Settled(es, t, now)
  }

  lemma PushIsTimed(t: Timing, es: seq<Event>, now: int)
    requires WellTimed(es, t) && Settled(es, t, now)
    ensures WellTimed(es + [Event(now, SinglePush)], t)
  {
  }

  lemma HoldIsTimed(t: Timing, es: seq<Event>, now: int)
    requires WellTimed(es, t) && es != [] && es[|es| - 1].action == SinglePush
    requires now - es[|es| - 1].at > t.debounce + t.hold
    ensures WellTimed(es + [Event(now, SingleHold)], t)
  {
  }

  /** Pushes before the last one are already far enough from it. */
  lemma PushesBeforeLast(t: Timing, es: seq<Event>)
    requires WellTimed(es, t) && es != [] && es[|es| - 1].action == SinglePush
    ensures forall i :: 0 <= i < |es| - 1 && es[i].action == SinglePush ==> es[|es| - 1].at - es[i].at > t.debounce
  {
  }

  lemma OnePoll(s: State, t: Timing, es: seq<Event>, now: int, p: Poll)
    requires WellTimed(es, t) && Remembers(s, t, es, now) && now <= p.now
    ensures var action := ActionOf(s, t, p);
            var es' := es + (if action == NullAction then [] else [Event(p.now, action)]);
            WellTimed(es', t) && Remembers(Next(s, t, p), t, es', p.now)
  {
    hide WellTimed;
    var action := ActionOf(s, t, p);
    if action == SinglePush {
      PushIsTimed(t, es, p.now);
    } else if action == SingleHold {
      HoldIsTimed(t, es, p.now);
    } else {
      assert es + [] == es;
      if s.mode == Debounced {
        PushesBeforeLast(t, es);
      }
    }
  }

  lemma FreshRemembers(epoch: int, t: Timing, now: int)
    ensures WellTimed([], t) && Remembers(State(Open, epoch), t, [], now)
  {
  }

  lemma {:induction false} TraceRemembers(epoch: int, t: Timing, ps: seq<Poll>)
    requires Monotone(ps)
    ensures WellTimed(Events(State(Open, epoch), t, ps), t)
    ensures ps != [] ==>
              Remembers(After(State(Open, epoch), t, ps), t, Events(State(Open, epoch), t, ps), ps[|ps| - 1].now)
    ensures ps == [] ==> After(State(Open, epoch), t, ps) == State(Open, epoch)
  {
    if ps == [] {
    } else {
      hide WellTimed, Remembers, Next, ActionOf;
      var init, last := ps[..|ps| - 1], ps[|ps| - 1];
      TraceRemembers(epoch, t, init);
      if init == [] {
        FreshRemembers(epoch, t, last.now);
        OnePoll(State(Open, epoch), t, [], last.now, last);
      } else {
        assert init[|init| - 1] == ps[|ps| - 2];
        OnePoll(After(State(Open, epoch), t, init), t, Events(State(Open, epoch), t, init), init[|init| - 1].now, last);
      }
    }
  }

  function CountOf(es: seq<Event>, a: Action): nat {
    if es == [] then 0 else CountOf(es[..|es| - 1], a) + if es[|es| - 1].action == a then 1 else 0
  }

  lemma {:induction false} HoldsFollowPushes(es: seq<Event>, t: Timing)
    requires WellTimed(es, t)
    ensures CountOf(es, SingleHold) <= CountOf(es, SinglePush)
    ensures es != [] && es[|es| - 1].action == SinglePush ==> CountOf(es, SingleHold) < CountOf(es, SinglePush)
    decreases |es|
  {
    if es == [] {
    } else {
      HoldsFollowPushes(es[..|es| - 1], t);
    }
  }

  // ---- Where each hold comes from -----------------------------------------------------------

  /** The mode after the first `k` polls, and what poll `k` reports. */
  function ModeAt(s: State, t: Timing, ps: seq<Poll>, k: nat): Mode
    requires k <= |ps|
  {
    After(s, t, ps[..k]).mode
  }

  function ActionAt(s: State, t: Timing, ps: seq<Poll>, k: nat): Action
    requires k < |ps|
  {
    ActionOf(After(s, t, ps[..k]), t, ps[k])
  }

  predicate Busy(m: Mode) {
    m == Debounced || m == Pressed
  }

  /** Poll `i` reports a push out of the open state, and the button is neither open nor held from then until
      poll `n`. So `i` is the only push since the last time it was open or held. */
  ghost predicate PushedAt(s: State, t: Timing, ps: seq<Poll>, i: nat, n: nat)
    requires i < n <= |ps|
  {
    && ActionAt(s, t, ps, i) == SinglePush && ModeAt(s, t, ps, i) == Open
    && (forall k :: i < k <= n ==> Busy(ModeAt(s, t, ps, k)))
    && (forall k :: i < k < n ==> ActionAt(s, t, ps, k) == NullAction)
  }

  lemma OneMorePoll(s: State, t: Timing, ps: seq<Poll>, n: nat)
    requires 0 < n <= |ps|
    ensures After(s, t, ps[..n]) == Next(After(s, t, ps[..n - 1]), t, ps[n - 1])
  {
    assert ps[..n][..n - 1] == ps[..n - 1] && ps[..n][n - 1] == ps[n - 1];
  }

  /** A busy button was pushed, once, and remembers when: the time of the push while debouncing, and later a
      time more than the debounce time after it. */
  lemma {:induction false} BusyIsPushed(epoch: int, t: Timing, ps: seq<Poll>, n: nat) returns (i: nat)
    requires n <= |ps| && Busy(ModeAt(State(Open, epoch), t, ps, n))
    ensures i < n && PushedAt(State(Open, epoch), t, ps, i, n)
    ensures var s := After(State(Open, epoch), t, ps[..n]);
            if s.mode == Debounced then s.changed == ps[i].now else s.changed - ps[i].now > t.debounce
  {
    var open := State(Open, epoch);
    OneMorePoll(open, t, ps, n);
    if Busy(ModeAt(open, t, ps, n - 1)) {
      i := BusyIsPushed(epoch, t, ps, n - 1);
    } else {
      i := n - 1;
    }
  }

  /** Polls `d` .. `n - 1` were all pressed, the last ones no later than the hold time after poll `d`. */
  ghost predicate KeptDown(t: Timing, ps: seq<Poll>, d: nat, n: nat)
    requires d < n <= |ps|
  {
    ps[d].pressed && forall k :: d < k < n ==> ps[k].pressed && ps[k].now - ps[d].now <= t.hold
  }

  /** A pressed button was pressed at every poll since the one that ended its debouncing, whose time it
      remembers. */
  lemma {:induction false} PressedIsKeptDown(epoch: int, t: Timing, ps: seq<Poll>, n: nat) returns (d: nat)
    requires n <= |ps| && ModeAt(State(Open, epoch), t, ps, n) == Pressed
    ensures d < n && ModeAt(State(Open, epoch), t, ps, d) == Debounced && KeptDown(t, ps, d, n)
    ensures After(State(Open, epoch), t, ps[..n]).changed == ps[d].now
    ensures forall k :: d < k <= n ==> ModeAt(State(Open, epoch), t, ps, k) == Pressed
  {
    var open := State(Open, epoch);
    OneMorePoll(open, t, ps, n);
    if ModeAt(open, t, ps, n - 1) == Pressed {
      d := PressedIsKeptDown(epoch, t, ps, n - 1);
    } else {
      d := n - 1;
    }
  }

  /** Each hold belongs to exactly one push: the button has been debouncing or pressed at every poll since,
      nothing else was reported in between, and the hold comes more than debounce + hold after it. No clock
      assumption is needed. */
  lemma HoldHasOnePush(epoch: int, t: Timing, ps: seq<Poll>, j: nat) returns (i: nat)
    requires j < |ps| && ActionAt(State(Open, epoch), t, ps, j) == SingleHold
    ensures i < j && PushedAt(State(Open, epoch), t, ps, i, j)
    ensures ps[j].now - ps[i].now > t.debounce + t.hold
  {
    i := BusyIsPushed(epoch, t, ps, j);
  }

  /** ... and to one press: from the poll that ended the debouncing on, every poll before the hold found the
      button pressed, and the hold is the first more than the hold time later. A tap is never a hold. */
  lemma HoldIsKeptDown(epoch: int, t: Timing, ps: seq<Poll>, j: nat) returns (d: nat)
    requires j < |ps| && ActionAt(State(Open, epoch), t, ps, j) == SingleHold
    ensures d < j && ModeAt(State(Open, epoch), t, ps, d) == Debounced && KeptDown(t, ps, d, j)
    ensures ps[j].now - ps[d].now > t.hold
  {
    d := PressedIsKeptDown(epoch, t, ps, j);
  }

  /** Between two polls that report a hold the button was open, and pushed again. */
  lemma HoldsArePushedApart(epoch: int, t: Timing, ps: seq<Poll>, j: nat, k: nat) returns (i: nat)
    requires j < k < |ps| && ActionAt(State(Open, epoch), t, ps, j) == SingleHold
    requires ActionAt(State(Open, epoch), t, ps, k) == SingleHold
    ensures j < i < k && PushedAt(State(Open, epoch), t, ps, i, k)
  {
    hide After;
    i := HoldHasOnePush(epoch, t, ps, k);
  }

  /** Button timing over every poll trace with a monotone clock and no reset: each hold belongs to exactly one
      push since the button was last open or held and comes more than debounce + hold after it, with the button
      pressed all the time since its debouncing ended, more than hold before; two pushes are more than debounce
      apart; and in no prefix do holds outnumber pushes. */
  lemma ButtonTiming(epoch: int, t: Timing, ps: seq<Poll>, n: nat)
    requires Monotone(ps) && n <= |ps|
    ensures var s := State(Open, epoch);
            forall j :: 0 <= j < |ps| && ActionAt(s, t, ps, j) == SingleHold ==>
              && (exists i :: 0 <= i < j && PushedAt(s, t, ps, i, j) && ps[j].now - ps[i].now > t.debounce + t.hold)
              && (exists d :: 0 <= d < j && KeptDown(t, ps, d, j) && ps[j].now - ps[d].now > t.hold)
    ensures WellTimed(Events(State(Open, epoch), t, ps), t)
    ensures var es := Events(State(Open, epoch), t, ps[..n]);
            CountOf(es, SingleHold) <= CountOf(es, SinglePush)
  {
    hide WellTimed, PushedAt, KeptDown;
    forall j | 0 <= j < |ps| && ActionAt(State(Open, epoch), t, ps, j) == SingleHold
      ensures exists i :: 0 <= i < j && PushedAt(State(Open, epoch), t, ps, i, j) &&
                          ps[j].now - ps[i].now > t.debounce + t.hold
      ensures exists d :: 0 <= d < j && KeptDown(t, ps, d, j) && ps[j].now - ps[d].now > t.hold
    {
      var i := HoldHasOnePush(epoch, t, ps, j);
      var d := HoldIsKeptDown(epoch, t, ps, j);
    }
    TraceRemembers(epoch, t, ps);
    TraceRemembers(epoch, t, ps[..n]);
    HoldsFollowPushes(Events(State(Open, epoch), t, ps[..n]), t);
  }

  // ---- One press, poll by poll ------------------------------------------------------------

  /** Nothing is reported at polls `i` .. `n - 1`. */
  ghost predicate Silent(s: State, t: Timing, ps: seq<Poll>, i: nat, n: nat)
    requires n <= |ps|
  {
    forall k :: i <= k < n ==> ActionAt(s, t, ps, k) == NullAction
  }

  /** An open button stays open, silently, until the first pressed poll, which is a push. */
  lemma {:induction false} OpenUntilPressed(s: State, t: Timing, ps: seq<Poll>, i: nat, n: nat)
    requires i <= n < |ps| && ModeAt(s, t, ps, i) == Open && forall k :: i <= k < n ==> !ps[k].pressed
    ensures ModeAt(s, t, ps, n) == Open && Silent(s, t, ps, i, n)
    ensures if ps[n].pressed
            then ActionAt(s, t, ps, n) == SinglePush && After(s, t, ps[..n + 1]) == State(Debounced, ps[n].now)
            else ActionAt(s, t, ps, n) == NullAction && ModeAt(s, t, ps, n + 1) == Open
    decreases n
  {
    OneMorePoll(s, t, ps, n + 1);
    if i < n {
      OpenUntilPressed(s, t, ps, i, n - 1);
    }
  }

  /** A push at poll `i` debounces, silently and whatever the button does, until the first poll more than the
      debounce time later, which finds it pressed or opens it. */
  lemma {:induction false} DebouncedUntil(s: State, t: Timing, ps: seq<Poll>, i: nat, n: nat)
    requires i < n < |ps| && ActionAt(s, t, ps, i) == SinglePush
    requires forall k :: i < k < n ==> ps[k].now - ps[i].now <= t.debounce
    ensures After(s, t, ps[..n]) == State(Debounced, ps[i].now) && Silent(s, t, ps, i + 1, n + 1)
    ensures ps[n].now - ps[i].now > t.debounce ==>
              After(s, t, ps[..n + 1]) == State(if ps[n].pressed then Pressed else Open, ps[n].now)
    decreases n
  {
    OneMorePoll(s, t, ps, n);
    OneMorePoll(s, t, ps, n + 1);
    if i + 1 < n {
      DebouncedUntil(s, t, ps, i, n - 1);
    }
  }

  /** A button found pressed at poll `d` stays so until the first poll more than the hold time later, which is a
      hold, or the first released one, which opens it, silently. */
  lemma {:induction false} PressedUntil(s: State, t: Timing, ps: seq<Poll>, d: nat, n: nat)
    requires d < n < |ps| && After(s, t, ps[..d + 1]) == State(Pressed, ps[d].now)
    requires forall k :: d < k < n ==> ps[k].pressed && ps[k].now - ps[d].now <= t.hold
    ensures After(s, t, ps[..n]) == State(Pressed, ps[d].now) && Silent(s, t, ps, d + 1, n)
    ensures if ps[n].now - ps[d].now > t.hold
            then ActionAt(s, t, ps, n) == SingleHold && After(s, t, ps[..n + 1]) == State(Held, ps[n].now)
            else ActionAt(s, t, ps, n) == NullAction &&
                 ModeAt(s, t, ps, n + 1) == if ps[n].pressed then Pressed else Open
    decreases n
  {
    OneMorePoll(s, t, ps, n);
    OneMorePoll(s, t, ps, n + 1);
    if d + 1 < n {
      PressedUntil(s, t, ps, d, n - 1);
    }
  }

  /** A held button stays held, silently, until the first released poll, which opens it: the next press is a new
      push. */
  lemma {:induction false} HeldUntilReleased(s: State, t: Timing, ps: seq<Poll>, j: nat, n: nat)
    requires j <= n < |ps| && ModeAt(s, t, ps, j) == Held && forall k :: j <= k < n ==> ps[k].pressed
    ensures ModeAt(s, t, ps, n) == Held && Silent(s, t, ps, j, n + 1)
    ensures ModeAt(s, t, ps, n + 1) == if ps[n].pressed then Held else Open
    decreases n
  {
    OneMorePoll(s, t, ps, n + 1);
    if j < n {
      HeldUntilReleased(s, t, ps, j, n - 1);
    }
  }

  // ---- Nothing is missed -------------------------------------------------------------------

  ghost predicate HasHold(es: seq<Event>) {
    exists e :: e in es && e.action == SingleHold
  }

  /** A button kept pressed from poll 0 to poll `n - 1`: it is still debouncing the first push, or pressed
      since some earlier poll, or has been reported held. */
  lemma {:induction false} KeptPressed(epoch: int, t: Timing, ps: seq<Poll>, n: nat)
    requires Monotone(ps) && 0 < n <= |ps| && forall k :: 0 <= k < n ==> ps[k].pressed
    ensures var s := After(State(Open, epoch), t, ps[..n]);
            || s == State(Debounced, ps[0].now)
            || (s.mode == Pressed && s.changed <= ps[n - 1].now)
            || (s.mode == Held && HasHold(Events(State(Open, epoch), t, ps[..n])))
  {
    var open, init, last := State(Open, epoch), ps[..n - 1], ps[n - 1];
    assert ps[..n][..n - 1] == init && ps[..n][n - 1] == last;
    if n > 1 {
      KeptPressed(epoch, t, ps, n - 1);
      var before, action := Events(open, t, init), ActionOf(After(open, t, init), t, last);
      if action == SingleHold {
        assert Event(last.now, SingleHold) in Events(open, t, ps[..n]);
      } else if HasHold(before) {
        var e :| e in before && e.action == SingleHold;
        assert e in Events(open, t, ps[..n]);
      }
    } else {
      assert After(open, t, init) == open;
    }
  }

  /** Once the debounce time has passed the push is settled, and the time of settling is kept until the
      hold is reported. */
  lemma {:induction false} SettledBy(epoch: int, t: Timing, ps: seq<Poll>, i: nat, n: nat)
    requires Monotone(ps) && 0 < i < n <= |ps| && forall k :: 0 <= k < n ==> ps[k].pressed
    requires ps[i].now - ps[0].now > t.debounce
    ensures var s := After(State(Open, epoch), t, ps[..n]);
            || (s.mode == Pressed && s.changed <= ps[i].now)
            || (s.mode == Held && HasHold(Events(State(Open, epoch), t, ps[..n])))
    decreases n
  {
    KeptPressed(epoch, t, ps, n);
    KeptPressed(epoch, t, ps, n - 1);
    var init := ps[..n - 1];
    assert ps[..n][..n - 1] == init && ps[..n][n - 1] == ps[n - 1];
    if n > i + 1 {
      SettledBy(epoch, t, ps, i, n - 1);
    }
  }

  /** A long press is always reported: kept pressed past the debounce time and then past the hold time, the
      button has reported a push and a hold. */
  lemma LongPressHolds(epoch: int, t: Timing, ps: seq<Poll>, i: nat, j: nat)
    requires Monotone(ps) && 0 < i < j < |ps| && forall k :: 0 <= k <= j ==> ps[k].pressed
    requires ps[i].now - ps[0].now > t.debounce && ps[j].now - ps[i].now > t.hold
    ensures HasHold(Events(State(Open, epoch), t, ps[..j + 1]))
  {
    var open, init := State(Open, epoch), ps[..j];
    SettledBy(epoch, t, ps, i, j);
    assert ps[..j + 1][..j] == init && ps[..j + 1][j] == ps[j];
    var before := Events(open, t, init);
    if HasHold(before) {
      var e :| e in before && e.action == SingleHold;
      assert e in Events(open, t, ps[..j + 1]);
    } else {
      assert Event(ps[j].now, SingleHold) in Events(open, t, ps[..j + 1]);
    }
  }
}
