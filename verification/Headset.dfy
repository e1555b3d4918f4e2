/** The headset's state: two links that come and go, a mode derived from them, and a button that starts and
    stops the show. */
module Headset {
  import Button

  datatype Mode = Connecting | Ready | Running | Closing

  datatype State = State(mode: Mode, tcp: bool, websocket: bool)

  /** What the headset says to the server. */
  datatype Message = RotateCamera | ResetCamera

  /** The headset between one start and stop: its state, the modes reported to the graphics, the messages
      posted. */
  datatype Streamer = Streamer(state: State, reports: seq<Mode>, messages: seq<Message>)

  datatype Event = Tcp(up: bool) | Websocket(up: bool) | Press(action: Button.Action)

  const STARTED: Streamer := Streamer(State(Connecting, false, false), [], [])

  /** A change of one link, given the other. */
  function ModeAfter(mode: Mode, up: bool, other: bool): Mode {
    if mode == Closing then mode
    else if !up then (if mode == Ready || mode == Running then Connecting else mode)
    else if mode == Connecting && other then Ready
    else mode
  }

  function PostTcp(s: State, up: bool): State {
    if s.mode == Closing then s else State(ModeAfter(s.mode, up, s.websocket), up, s.websocket)
  }

  function PostWebsocket(s: State, up: bool): State {
    if s.mode == Closing then s else State(ModeAfter(s.mode, up, s.tcp), s.tcp, up)
  }

  function Report(t: Streamer, s: State): Streamer {
    t.(state := s, reports := if s.mode != t.state.mode then t.reports + [s.mode] else t.reports)
  }

  function DoStateChange(t: Streamer, mode: Mode): Streamer {
    t.(state := t.state.(mode := mode), reports := t.reports + [mode])
  }

  function OnPress(t: Streamer, a: Button.Action): Streamer {
    if t.state.mode == Ready then DoStateChange(t, Running)
    else if t.state.mode != Running then t
    else if a == Button.SingleHold then
      DoStateChange(t, Ready).(messages := t.messages + [ResetCamera])
    else t.(messages := t.messages + [RotateCamera])
  }

  function Step(t: Streamer, e: Event): Streamer {
    match e
    case Tcp(up) => Report(t, PostTcp(t.state, up))
    case Websocket(up) => Report(t, PostWebsocket(t.state, up))
    case Press(a) => OnPress(t, a)
  }

  /** The object behind the lock. */
  class HeadsetState {
    var tcpIsConnected: bool
    var websocketIsConnected: bool
    var mode: Mode

    ghost function View(): State
      reads this
    {
      State(mode, tcpIsConnected, websocketIsConnected)
    }

    constructor ()
      ensures View() == State(Connecting, false, false)
    {
      tcpIsConnected, websocketIsConnected, mode := false, false, Connecting;
    }

    method PostState(mode: Mode)
      modifies this
      ensures View() == old(View()).(mode := mode)
    {
      this.mode := mode;
    }

    method PostTcpConnection(up: bool) returns (changed: bool)
      modifies this
      ensures View() == PostTcp(old(View()), up) && changed == (mode != old(mode))
    {
      if mode == Closing {
        return false;
      }
      var last := mode;
      if !up {
        if last == Ready || last == Running {
          mode := Connecting;
        }
      } else if last == Connecting && websocketIsConnected {
        mode := Ready;
      }
      tcpIsConnected := up;
      return last != mode;
    }

    method PostWebsocketConnection(up: bool) returns (changed: bool)
      modifies this
      ensures View() == PostWebsocket(old(View()), up) && changed == (mode != old(mode))
    {
      if mode == Closing {
        return false;
      }
      var last := mode;
      if !up {
        if last == Ready || last == Running {
          mode := Connecting;
        }
      } else if last == Connecting && tcpIsConnected {
        mode := Ready;
      }
      websocketIsConnected := up;
      return last != mode;
    }
  }

  class HeadsetStreamer {
    const state: HeadsetState
    var reports: seq<Mode>
    var messages: seq<Message>

    ghost function View(): Streamer
      reads this, state
    {
      Streamer(state.View(), reports, messages)
    }

    constructor ()
      ensures View() == STARTED && fresh(state)
    {
      state := new HeadsetState();
      reports, messages := [], [];
    }

    method OnTcp(up: bool)
      modifies this, state
      ensures View() == Step(old(View()), Tcp(up))
    {
      var changed := state.PostTcpConnection(up);
      if changed {
        reports := reports + [state.mode];
      }
    }

    method OnWebsocket(up: bool)
      modifies this, state
      ensures View() == Step(old(View()), Websocket(up))
    {
      var changed := state.PostWebsocketConnection(up);
      if changed {
        reports := reports + [state.mode];
      }
    }

    method ChangeState(mode: Mode)
      modifies this, state
      ensures View() == DoStateChange(old(View()), mode)
    {
      state.PostState(mode);
      reports := reports + [mode];
    }

    method OnButton(action: Button.Action)
      modifies this, state
      ensures View() == Step(old(View()), Press(action))
    {
      var mode := state.mode;
      if mode == Ready {
        ChangeState(Running);
      } else if mode == Running {
        if action == Button.SingleHold {
          ChangeState(Ready);
          messages := messages + [ResetCamera];
        } else {
          messages := messages + [RotateCamera];
        }
      }
    }
  }

  // ---- Runs --------------------------------------------------------------------------------

  function Run(t: Streamer, es: seq<Event>): Streamer {
    if es == [] then t else Step(Run(t, es[..|es| - 1]), es[|es| - 1])
  }

  /** The mode last reported, if any. */
  function LastReport(reports: seq<Mode>): Mode {
    if reports == [] then Connecting else reports[|reports| - 1]
  }

  /** A report is a change: it differs from the one before, and running is only entered from ready. */
  ghost predicate Transitions(reports: seq<Mode>) {
    forall i :: 0 <= i < |reports| ==>
      var before := LastReport(reports[..i]);
      reports[i] != before && (reports[i] == Running ==> before == Ready)
  }

  /** The mode says whether both links are up, and the reports end in it. */
  ghost predicate Inv(t: Streamer) {
    && t.state.mode != Closing
    && (t.state.mode == Connecting <==> !(t.state.tcp && t.state.websocket))
    && LastReport(t.reports) == t.state.mode
    && Transitions(t.reports)
  }

  lemma ReportKeeps(reports: seq<Mode>, mode: Mode)
    requires Transitions(reports) && mode != LastReport(reports) && (mode == Running ==> LastReport(reports) == Ready)
    ensures Transitions(reports + [mode]) && LastReport(reports + [mode]) == mode
  {
    var r := reports + [mode];
    forall i | 0 <= i < |r|
      ensures r[i] != LastReport(r[..i]) && (r[i] == Running ==> LastReport(r[..i]) == Ready)
    {
      assert i < |reports| ==> r[..i] == reports[..i];
      assert i == |reports| ==> r[..i] == reports;
    }
  }

  lemma StepKeeps(t: Streamer, e: Event)
    requires Inv(t)
    ensures Inv(Step(t, e))
    ensures var mode := Step(t, e).state.mode;
            Step(t, e).reports == if mode == t.state.mode then t.reports else t.reports + [mode]
    ensures Step(t, e).state.mode == Running && t.state.mode != Running ==> e.Press? && t.state.mode == Ready
  {
    hide Transitions, LastReport;
    var mode := Step(t, e).state.mode;
    if mode != t.state.mode {
      ReportKeeps(t.reports, mode);
    }
  }

  lemma StartedInv()
    ensures Inv(STARTED)
  {
  }

  // ---- Told from the events alone ----------------------------------------------------------

  /** Whether the last event of a link brought it up. */
  function TcpUp(es: seq<Event>): bool {
    if es == [] then false
    else match es[|es| - 1]
      case Tcp(up) => up
      case _ => TcpUp(es[..|es| - 1])
  }

  function WebsocketUp(es: seq<Event>): bool {
    if es == [] then false
    else match es[|es| - 1]
      case Websocket(up) => up
      case _ => WebsocketUp(es[..|es| - 1])
  }

  /** Whether the wearer has started the show and not stopped it: any button action starts it once both links
      are up, a hold stops it, and so does the loss of a link. */
  function Started(es: seq<Event>): bool {
    if es == [] then false
    else
      var init := es[..|es| - 1];
      match es[|es| - 1]
      case Press(a) => if Started(init) then a != Button.SingleHold else TcpUp(init) && WebsocketUp(init)
      case Tcp(up) => up && Started(init)
      case Websocket(up) => up && Started(init)
  }

  /** What the wearer has asked of the server: a button action during the show, a hold for the first camera,
      anything else for the next one. */
  function Asked(es: seq<Event>): seq<Message> {
    if es == [] then []
    else
      var init, last := es[..|es| - 1], es[|es| - 1];
      if !last.Press? || !Started(init) then Asked(init)
      else Asked(init) + [if last.action == Button.SingleHold then ResetCamera else RotateCamera]
  }

  function ModeOf(es: seq<Event>): Mode {
    if !(TcpUp(es) && WebsocketUp(es)) then Connecting else if Started(es) then Running else Ready
  }

  /** The modes entered, in order. */
  function Entered(es: seq<Event>): seq<Mode> {
    if es == [] then []
    else
      var before, after := ModeOf(es[..|es| - 1]), ModeOf(es);
      Entered(es[..|es| - 1]) + if before == after then [] else [after]
  }

  lemma {:induction false} StartedNeedsLinks(es: seq<Event>)
    ensures Started(es) ==> TcpUp(es) && WebsocketUp(es)
    decreases |es|
  {
    if es == [] {
    } else {
      StartedNeedsLinks(es[..|es| - 1]);
    }
  }

  /** State agreement, over every run of callbacks between a start and a stop: the flags say what each link last
      did; the headset is connecting exactly when not both links are up, running exactly when the wearer has
      started it since, and ready otherwise; the reports are exactly the changes of mode in order, and the
      messages exactly what the wearer asked for. */
  lemma {:induction false} HeadsetAgreement(es: seq<Event>)
    ensures Run(STARTED, es) == Streamer(State(ModeOf(es), TcpUp(es), WebsocketUp(es)), Entered(es), Asked(es))
    ensures ModeOf(es) == Connecting <==> !(TcpUp(es) && WebsocketUp(es))
    decreases |es|
  {
    if es == [] {
    } else {
      HeadsetAgreement(es[..|es| - 1]);
      StartedNeedsLinks(es[..|es| - 1]);
    }
  }

  lemma {:induction false} RunKeeps(es: seq<Event>)
    ensures Inv(Run(STARTED, es))
    decreases |es|
  {
    hide Inv, Step;
    if es == [] {
      StartedInv();
    } else {
      RunKeeps(es[..|es| - 1]);
      StepKeeps(Run(STARTED, es[..|es| - 1]), es[|es| - 1]);
    }
  }

  /** Running is entered by a button action from ready and by nothing else; a link going down always ends
      it. No report repeats the one before, and running is only ever reported after ready. */
  lemma RunningIsEarned(es: seq<Event>, e: Event)
    ensures var before, after := Run(STARTED, es).state.mode, Run(STARTED, es + [e]).state.mode;
            && (before != Running && after == Running <==> before == Ready && e.Press?)
            && (e == Tcp(false) || e == Websocket(false) ==> after == Connecting)
            && (before == Running && after == Ready <==> before == Running && e == Press(Button.SingleHold))
    ensures Transitions(Run(STARTED, es).reports)
  {
    RunKeeps(es);
    assert (es + [e])[..|es|] == es;
  }
}
