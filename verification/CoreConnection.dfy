/**
 The reconnecting client. `Step` is the specification of one event; class `CoreClient` is the object
 whose fields the callbacks update. What the world sees of it is its trace.
 */
module CoreConnection {
  import opened Common

  const INITIAL_RECONNECT_DELAY_MS := 1000
  const MAX_RECONNECT_DELAY_MS := 30000

  datatype Status = Connecting | Connected | Disconnected

  datatype Message = Hello(compatible: bool) | Other(body: string) | Garbage

  /** What the client does to the world: sockets, timers, messages in and out. */
  datatype Effect =
    | Opened(socket: nat)
    | Greeted(socket: nat)
    | Delivered(socket: nat, body: string)
    | Sent(socket: nat, body: string)
    | Scheduled(delayMs: nat)
    | Refused
    | UserClosed
    | ErrorReported

  /**
   `attached` are the sockets whose callbacks still point at the client, `pending` the timers that
   can still fire.
   */
  datatype State = State(socket: Option<nat>, timer: Option<nat>, nextDelayMs: nat, closed: bool, incompatible: bool,
                         status: Status, attached: set<nat>, pending: set<nat>,
                         sockets: nat, timers: nat, trace: seq<Effect>)

  /** Events; `fails` says that the socket cannot be created, or the send throws. */
  datatype Event =
    | MessageFrom(from: nat, message: Message)
    | CloseFrom(from: nat)
    | ErrorFrom(from: nat)
    | TimerFires(handle: nat, fails: bool)
    | UserCloses
    | UserSends(body: string, fails: bool)

  function Min(a: nat, b: nat): nat { if a < b then a else b }

  function ScheduleStep(s: State, autoReconnect: bool): State {
    if !autoReconnect || s.closed || s.timer.Some? then s
    else s.(nextDelayMs := Min(s.nextDelayMs * 2, MAX_RECONNECT_DELAY_MS), timer := Some(s.timers),
            pending := s.pending + {s.timers}, timers := s.timers + 1, trace := s.trace + [Scheduled(s.nextDelayMs)])
  }

  function ConnectStep(s: State, autoReconnect: bool, fails: bool): State {
    if s.closed || s.socket.Some? || s.timer.Some? then s
    else if fails then
      ScheduleStep(s.(status := Disconnected, trace := s.trace + [ErrorReported]), autoReconnect)
    else s.(status := Connecting, socket := Some(s.sockets), attached := s.attached + {s.sockets},
            sockets := s.sockets + 1, trace := s.trace + [Opened(s.sockets)])
  }

  function ReceiveStep(s: State, m: Message): State {
    if s.status.Disconnected? then s
    else
      match m
      case Garbage => s
      case Hello(compatible) =>
        if !s.status.Connecting? then s
        else if !compatible then
          s.(incompatible := true, socket := None, status := Disconnected,
             attached := if s.socket.Some? then s.attached - {s.socket.value} else s.attached,
             trace := s.trace + [Refused])
        else s.(nextDelayMs := INITIAL_RECONNECT_DELAY_MS, status := Connected,
                trace := s.trace + if s.socket.Some? then [Greeted(s.socket.value)] else [])
      case Other(body) =>
        if !s.status.Connected? || s.socket.None? then s else s.(trace := s.trace + [Delivered(s.socket.value, body)])
  }

  function Dropped(s: State, autoReconnect: bool): State
    requires s.socket.Some?
  {
    var t := s.(attached := s.attached - {s.socket.value}, socket := None, status := Disconnected);
    if s.incompatible then t else ScheduleStep(t, autoReconnect)
  }

  function Closed(s: State): State {
    if s.closed then s
    else s.(closed := true, timer := None, socket := None, status := Disconnected,
            pending := if s.timer.Some? then s.pending - {s.timer.value} else s.pending,
            attached := if s.socket.Some? then s.attached - {s.socket.value} else s.attached,
            trace := s.trace + [UserClosed])
  }

  function Step(s: State, autoReconnect: bool, e: Event): State {
    match e
    case MessageFrom(from, m) => if from in s.attached && s.socket == Some(from) then ReceiveStep(s, m) else s
    case ErrorFrom(from) =>
      if from in s.attached && s.socket == Some(from) then s.(trace := s.trace + [ErrorReported]) else s
    case CloseFrom(from) => if from in s.attached && s.socket == Some(from) then Dropped(s, autoReconnect) else s
    case TimerFires(h, fails) =>
      if h in s.pending then ConnectStep(s.(pending := s.pending - {h}, timer := None), autoReconnect, fails) else s
    case UserCloses => Closed(s)
    case UserSends(body, fails) =>
      if !s.status.Connected? || s.socket.None? then s
      else s.(trace := s.trace + [if fails then ErrorReported else Sent(s.socket.value, body)])
  }

  const FRESH := State(None, None, INITIAL_RECONNECT_DELAY_MS, false, false, Connecting, {}, {}, 0, 0, [])

  /** A client from its construction through any events. */
  function Run(autoReconnect: bool, firstFails: bool, events: seq<Event>): State {
    if events == [] then ConnectStep(FRESH, autoReconnect, firstFails)
    else Step(Run(autoReconnect, firstFails, events[..|events|-1]), autoReconnect, events[|events|-1])
  }

  // ---------------------------------------------------------------- what a trace may show

  function Pow2(k: nat): nat { if k == 0 then 1 else 2 * Pow2(k - 1) }

  /** The delay before the next attempt, after `k` attempts without a hello. */
  function Delay(k: nat): nat { Min(1000 * Pow2(k), MAX_RECONNECT_DELAY_MS) }

  lemma DelayDoubles(k: nat)
    ensures Delay(k + 1) == Min(Delay(k) * 2, MAX_RECONNECT_DELAY_MS)
  {
  }

  function ScheduledSinceHello(trace: seq<Effect>): nat {
    if trace == [] then 0
    else
      var before := ScheduledSinceHello(trace[..|trace|-1]);
      match trace[|trace|-1]
      case Greeted(_) => 0
      case Scheduled(_) => before + 1
      case _ => before
  }

  function LastOpened(trace: seq<Effect>): Option<nat> {
    if trace == [] then None
    else if trace[|trace|-1].Opened? then Some(trace[|trace|-1].socket)
    else LastOpened(trace[..|trace|-1])
  }

  /** Has the last opened socket said a compatible hello? */
  predicate GreetedSinceOpened(trace: seq<Effect>) {
    trace != [] && (trace[|trace|-1].Greeted? || (!trace[|trace|-1].Opened? && GreetedSinceOpened(trace[..|trace|-1])))
  }

  predicate Stopped(trace: seq<Effect>) { Refused in trace || UserClosed in trace }

  /** May this effect follow that trace? */
  predicate Follows(trace: seq<Effect>, e: Effect) {
    match e
    case Opened(_) => !Stopped(trace)
    case Greeted(s) => LastOpened(trace) == Some(s) && !Stopped(trace)
    case Delivered(s, _) => LastOpened(trace) == Some(s) && GreetedSinceOpened(trace) && !Stopped(trace)
    case Sent(s, _) => LastOpened(trace) == Some(s) && GreetedSinceOpened(trace) && !Stopped(trace)
    case Scheduled(delay) => delay == Delay(ScheduledSinceHello(trace)) && !Stopped(trace)
    case _ => true
  }

  predicate GoodTrace(trace: seq<Effect>) {
    forall i :: 0 <= i < |trace| ==> Follows(trace[..i], trace[i])
  }

  lemma GoodTraceNext(trace: seq<Effect>, e: Effect)
    requires GoodTrace(trace) && Follows(trace, e)
    ensures GoodTrace(trace + [e])
    ensures LastOpened(trace + [e]) == if e.Opened? then Some(e.socket) else LastOpened(trace)
    ensures GreetedSinceOpened(trace + [e]) <==> e.Greeted? || (!e.Opened? && GreetedSinceOpened(trace))
    ensures ScheduledSinceHello(trace + [e])
            == if e.Greeted? then 0 else ScheduledSinceHello(trace) + if e.Scheduled? then 1 else 0
    ensures Stopped(trace + [e]) <==> Stopped(trace) || e.Refused? || e.UserClosed?
  {
    var next := trace + [e];
    assert next[..|next|-1] == trace;
    forall i | 0 <= i < |next| ensures Follows(next[..i], next[i]) {
      if i < |trace| { assert next[..i] == trace[..i]; }
    }
  }

  predicate Inv(s: State, autoReconnect: bool) {
    // at most one socket is attached, and never a socket together with a timer
    && s.attached == (if s.socket.Some? then {s.socket.value} else {})
    && s.pending == (if s.timer.Some? then {s.timer.value} else {})
    && (s.socket.Some? ==> s.timer.None?)
    && (s.closed || s.incompatible ==> s.socket.None? && s.timer.None?)
    && (s.socket.Some? <==> !s.status.Disconnected?)
    && (s.socket.Some? ==> s.socket.value < s.sockets)
    && (s.timer.Some? ==> s.timer.value < s.timers && autoReconnect)
    // reconnection is never given up but for a reason
    && (autoReconnect && !s.closed && !s.incompatible ==> s.socket.Some? || s.timer.Some?)
    // the trace
    && GoodTrace(s.trace)
    && s.nextDelayMs == Delay(ScheduledSinceHello(s.trace))
    && (s.socket.Some? ==> LastOpened(s.trace) == s.socket)
    && (s.status.Connected? ==> GreetedSinceOpened(s.trace))
    && (Stopped(s.trace) <==> s.closed || s.incompatible)
  }

  /** Everything but reconnection, which the caller still has to see to. */
  predicate Idle(s: State, autoReconnect: bool) {
    && s.socket.None? && s.timer.None? && s.attached == {} && s.pending == {} && s.status.Disconnected?
    && GoodTrace(s.trace) && s.nextDelayMs == Delay(ScheduledSinceHello(s.trace))
    && (Stopped(s.trace) <==> s.closed || s.incompatible)
  }

  lemma ScheduleKeepsInv(s: State, autoReconnect: bool)
    requires Idle(s, autoReconnect) && !s.incompatible
    ensures Inv(ScheduleStep(s, autoReconnect), autoReconnect)
  {
    if autoReconnect && !s.closed {
      GoodTraceNext(s.trace, Scheduled(s.nextDelayMs));
      DelayDoubles(ScheduledSinceHello(s.trace));
    }
  }

  lemma ConnectKeepsInv(s: State, autoReconnect: bool, fails: bool)
    requires Idle(s.(status := Disconnected), autoReconnect) && !s.incompatible && !s.closed
    ensures Inv(ConnectStep(s, autoReconnect, fails), autoReconnect)
  {
    if fails {
      GoodTraceNext(s.trace, ErrorReported);
      ScheduleKeepsInv(s.(status := Disconnected, trace := s.trace + [ErrorReported]), autoReconnect);
    } else {
      GoodTraceNext(s.trace, Opened(s.sockets));
    }
  }

  lemma ReceiveKeepsInv(s: State, autoReconnect: bool, m: Message)
    requires Inv(s, autoReconnect) && s.socket.Some?
    ensures Inv(ReceiveStep(s, m), autoReconnect)
  {
    match m
    case Garbage =>
    case Hello(compatible) =>
      if s.status.Connecting? {
        GoodTraceNext(s.trace, if compatible then Greeted(s.socket.value) else Refused);
      }
    case Other(body) =>
      if s.status.Connected? { GoodTraceNext(s.trace, Delivered(s.socket.value, body)); }
  }

  lemma StepKeepsInv(s: State, autoReconnect: bool, e: Event)
    requires Inv(s, autoReconnect)
    ensures Inv(Step(s, autoReconnect, e), autoReconnect)
  {
    match e
    case MessageFrom(from, m) => if s.socket == Some(from) { ReceiveKeepsInv(s, autoReconnect, m); }
    case ErrorFrom(from) => GoodTraceNext(s.trace, ErrorReported);
    case CloseFrom(from) =>
      if s.socket == Some(from) {
        ScheduleKeepsInv(s.(attached := s.attached - {from}, socket := None, status := Disconnected), autoReconnect);
      }
    case TimerFires(h, fails) =>
      if h in s.pending { ConnectKeepsInv(s.(pending := s.pending - {h}, timer := None), autoReconnect, fails); }
    case UserCloses => GoodTraceNext(s.trace, UserClosed);
    case UserSends(body, fails) =>
      if s.status.Connected? { GoodTraceNext(s.trace, if fails then ErrorReported else Sent(s.socket.value, body)); }
  }

  /** Over every run, whatever the sockets, the timers and the user do. */
  lemma {:induction false} RunKeepsInv(autoReconnect: bool, firstFails: bool, events: seq<Event>)
    ensures Inv(Run(autoReconnect, firstFails, events), autoReconnect)
    decreases |events|
  {
    if events == [] {
      ConnectKeepsInv(FRESH, autoReconnect, firstFails);
    } else {
      RunKeepsInv(autoReconnect, firstFails, events[..|events|-1]);
      StepKeepsInv(Run(autoReconnect, firstFails, events[..|events|-1]), autoReconnect, events[|events|-1]);
    }
  }

  /** Nothing but a hello on the current socket comes before a delivery, and nothing is opened after an end. */
  lemma RunTraceIsGood(autoReconnect: bool, firstFails: bool, events: seq<Event>)
    ensures var s := Run(autoReconnect, firstFails, events);
            && GoodTrace(s.trace) && |s.attached| <= 1 && !(s.socket.Some? && s.timer.Some?)
            && (s.closed || s.incompatible ==> s.attached == {} && s.pending == {})
  {
    RunKeepsInv(autoReconnect, firstFails, events);
  }

  // ---------------------------------------------------------------- which events have which effects

  /** The event is a reason for the effect. */
  predicate Explains(e: Event, f: Effect) {
    match f
    case Opened(_) => e.TimerFires? && !e.fails
    case Greeted(k) => e == MessageFrom(k, Hello(true))
    case Delivered(k, body) => e == MessageFrom(k, Other(body))
    case Sent(_, body) => e == UserSends(body, false)
    case Scheduled(_) => e.CloseFrom? || (e.TimerFires? && e.fails)
    case Refused => e.MessageFrom? && e.message == Hello(false)
    case UserClosed => e.UserCloses?
    case ErrorReported => e.ErrorFrom? || ((e.TimerFires? || e.UserSends?) && e.fails)
  }

  /** The `i`-th effect happened at the `k`-th event, which explains it and is not from a stale socket. */
  predicate HappenedAt(autoReconnect: bool, firstFails: bool, events: seq<Event>, i: nat, k: nat)
    requires k < |events|
  {
    var before, after := Run(autoReconnect, firstFails, events[..k]), Run(autoReconnect, firstFails, events[..k+1]);
    && |before.trace| <= i < |after.trace| && Explains(events[k], after.trace[i])
    && (events[k].MessageFrom? || events[k].CloseFrom? || events[k].ErrorFrom? ==>
          before.socket == Some(events[k].from))
  }

  lemma StepIsExplained(s: State, autoReconnect: bool, e: Event)
    requires Inv(s, autoReconnect)
    ensures s.trace != Step(s, autoReconnect, e).trace && (e.MessageFrom? || e.CloseFrom? || e.ErrorFrom?) ==>
              s.socket == Some(e.from)
    ensures var t := Step(s, autoReconnect, e);
            s.trace <= t.trace && forall i :: |s.trace| <= i < |t.trace| ==> Explains(e, t.trace[i])
  {
  }

  lemma HappenedEarlier(autoReconnect: bool, firstFails: bool, before: seq<Event>, events: seq<Event>, i: nat, k: nat)
    requires before <= events && k < |before| && HappenedAt(autoReconnect, firstFails, before, i, k)
    ensures HappenedAt(autoReconnect, firstFails, events, i, k)
  {
    assert before[..k] == events[..k] && before[..k+1] == events[..k+1] && before[k] == events[k];
  }

  /**
   Over every run: every effect after construction happened at an event that explains it. So the
   client greets only on a compatible hello from that socket, refuses only on an incompatible one,
   delivers only what a socket sent, sends only what the user sent, and stops only when told to.
   */
  lemma {:induction false} EffectsHaveReasons(autoReconnect: bool, firstFails: bool, events: seq<Event>, i: nat)
    requires |Run(autoReconnect, firstFails, []).trace| <= i < |Run(autoReconnect, firstFails, events).trace|
    ensures exists k: nat :: k < |events| && HappenedAt(autoReconnect, firstFails, events, i, k)
    decreases |events|
  {
    var n := |events| - 1;
    var before := events[..n];
    var s := Run(autoReconnect, firstFails, before);
    RunKeepsInv(autoReconnect, firstFails, before);
    StepIsExplained(s, autoReconnect, events[n]);
    assert events[..n+1] == events;
    if i < |s.trace| {
      EffectsHaveReasons(autoReconnect, firstFails, before, i);
      var k: nat :| k < |before| && HappenedAt(autoReconnect, firstFails, before, i, k);
      HappenedEarlier(autoReconnect, firstFails, before, events, i, k);
    } else {
      assert HappenedAt(autoReconnect, firstFails, events, i, n);
    }
  }

  /** The hello on the current socket decides, whatever happened before. */
  lemma HelloDecides(s: State, autoReconnect: bool, k: nat)
    requires Inv(s, autoReconnect) && s.socket == Some(k) && s.status.Connecting?
    ensures var t := Step(s, autoReconnect, MessageFrom(k, Hello(true)));
            t.status.Connected? && t.socket == Some(k) && t.trace == s.trace + [Greeted(k)]
            && t.nextDelayMs == INITIAL_RECONNECT_DELAY_MS
    ensures var t := Step(s, autoReconnect, MessageFrom(k, Hello(false)));
            t.incompatible && t.status.Disconnected? && t.socket.None? && t.timer.None?
            && t.trace == s.trace + [Refused]
  {
  }

  /** While connected every message goes through, in both directions, exactly once and unchanged. */
  lemma ConnectedMeansBothWays(s: State, autoReconnect: bool, k: nat, body: string)
    requires Inv(s, autoReconnect) && s.socket == Some(k) && s.status.Connected?
    ensures Step(s, autoReconnect, MessageFrom(k, Other(body))) == s.(trace := s.trace + [Delivered(k, body)])
    ensures Step(s, autoReconnect, UserSends(body, false)) == s.(trace := s.trace + [Sent(k, body)])
    ensures Step(s, autoReconnect, UserSends(body, true)) == s.(trace := s.trace + [ErrorReported])
  {
  }

  /** Nothing comes through before the hello, after an end, or from any other socket. */
  lemma OtherwiseNothing(s: State, autoReconnect: bool, from: nat, body: string)
    requires Inv(s, autoReconnect) && !(s.status.Connected? && s.socket == Some(from))
    ensures Step(s, autoReconnect, MessageFrom(from, Other(body))) == s
    ensures s.socket != Some(from) ==>
              forall m :: Step(s, autoReconnect, MessageFrom(from, m)) == s
                          && Step(s, autoReconnect, CloseFrom(from)) == s
                          && Step(s, autoReconnect, ErrorFrom(from)) == s
  {
  }

  /** A new client is connecting, unless its first socket cannot be created. */
  lemma ConstructionConnects(autoReconnect: bool)
    ensures var s := Run(autoReconnect, false, []);
            s.status.Connecting? && s.socket == Some(0) && s.trace == [Opened(0)]
  {
  }

  /** A timer that fires opens a new socket. */
  lemma TimerReconnects(s: State, autoReconnect: bool)
    requires Inv(s, autoReconnect) && s.timer.Some?
    ensures var t := Step(s, autoReconnect, TimerFires(s.timer.value, false));
            t.status.Connecting? && t.socket == Some(s.sockets) && t.timer.None?
            && t.trace == s.trace + [Opened(s.sockets)]
  {
  }

  /** A lost connection is scheduled for another attempt, after the delay the law gives. */
  lemma LostConnectionIsRetried(s: State, k: nat)
    requires Inv(s, true) && s.socket == Some(k)
    ensures var t := Step(s, true, CloseFrom(k));
            t.status.Disconnected? && t.timer.Some?
            && t.trace == s.trace + [Scheduled(Delay(ScheduledSinceHello(s.trace)))]
  {
  }

  /** What the user and the world do to bring a lost client back: its timer, a hello, a message. */
  function ReturnOf(s: State, body: string): seq<Event>
    requires s.timer.Some?
  {
    [TimerFires(s.timer.value, false), MessageFrom(s.sockets, Hello(true)), MessageFrom(s.sockets, Other(body))]
  }

  lemma RunNext(autoReconnect: bool, firstFails: bool, events: seq<Event>, e: Event)
    ensures Run(autoReconnect, firstFails, events + [e])
            == Step(Run(autoReconnect, firstFails, events), autoReconnect, e)
  {
    assert (events + [e])[..|events|] == events;
  }

  /**
   A reconnecting client that has not been stopped always comes back: in every reachable state that
   has no socket its timer is set, and timer, hello and message lead to a connection that delivers.
   */
  lemma LostClientComesBack(firstFails: bool, events: seq<Event>, body: string)
    requires var s := Run(true, firstFails, events); s.socket.None? && !s.closed && !s.incompatible
    ensures var s := Run(true, firstFails, events);
            s.timer.Some?
            && var t := Run(true, firstFails, events + ReturnOf(s, body));
               t.status.Connected? && t.socket == Some(s.sockets)
               && t.trace == s.trace + [Opened(s.sockets), Greeted(s.sockets), Delivered(s.sockets, body)]
  {
    var s := Run(true, firstFails, events);
    RunKeepsInv(true, firstFails, events);
    var e := ReturnOf(s, body);
    assert events + e == events + [e[0]] + [e[1]] + [e[2]];
    RunNext(true, firstFails, events, e[0]);
    RunNext(true, firstFails, events + [e[0]], e[1]);
    RunNext(true, firstFails, events + [e[0]] + [e[1]], e[2]);
    TimerReconnects(s, true);
    StepKeepsInv(s, true, e[0]);
    var s1 := Step(s, true, e[0]);
    HelloDecides(s1, true, s.sockets);
    StepKeepsInv(s1, true, e[1]);
    ConnectedMeansBothWays(Step(s1, true, e[1]), true, s.sockets, body);
  }

  // ---------------------------------------------------------------- the object

  class CoreClient {
    const autoReconnect: bool
    var socket: Option<nat>
    var reconnectTimer: Option<nat>
    var nextReconnectDelayMs: nat
    var closed: bool
    var compatibilityFailed: bool
    var connectionState: Status
    // the platform: attached callbacks, live timers, how many of each were made, what was done
    var attached: set<nat>
    var pending: set<nat>
    var sockets: nat
    var timers: nat
    var trace: seq<Effect>

    function View(): State
      reads this
    {
      State(socket, reconnectTimer, nextReconnectDelayMs, closed, compatibilityFailed, connectionState,
            attached, pending, sockets, timers, trace)
    }

    constructor (autoReconnect: bool, fails: bool)
      ensures this.autoReconnect == autoReconnect && View() == Run(autoReconnect, fails, [])
    {
      this.autoReconnect := autoReconnect;
      socket, reconnectTimer, nextReconnectDelayMs := None, None, INITIAL_RECONNECT_DELAY_MS;
      closed, compatibilityFailed, connectionState := false, false, Connecting;
      attached, pending, sockets, timers, trace := {}, {}, 0, 0, [];
      new;
      Connect(fails);
    }

    method Perform(e: Effect)
      modifies this`trace
      ensures trace == old(trace) + [e]
    {
      trace := trace + [e];
    }

    method ScheduleReconnect()
      modifies this
      ensures View() == old(ScheduleStep(View(), autoReconnect))
    {
      if !autoReconnect || closed || reconnectTimer.Some? { return; }
      var delayMs := nextReconnectDelayMs;
      nextReconnectDelayMs := Min(delayMs * 2, MAX_RECONNECT_DELAY_MS);
      Perform(Scheduled(delayMs));
      reconnectTimer := Some(timers);
      pending := pending + {timers};
      timers := timers + 1;
    }

    method Connect(fails: bool)
      modifies this
      ensures View() == old(ConnectStep(View(), autoReconnect, fails))
    {
      if closed || socket.Some? || reconnectTimer.Some? { return; }
      connectionState := Connecting;
      if fails {
        Perform(ErrorReported);
        connectionState := Disconnected;
        ScheduleReconnect();
        return;
      }
      var created := sockets;
      sockets := sockets + 1;
      Perform(Opened(created));
      socket := Some(created);
      attached := attached + {created};
    }

    method Detach(s: nat)
      modifies this`attached
      ensures attached == old(attached) - {s}
    {
      attached := attached - {s};
    }

    method Receive(m: Message)
      modifies this
      ensures View() == old(ReceiveStep(View(), m))
    {
      if connectionState.Disconnected? || m.Garbage? { return; }
      if m.Hello? {
        if !connectionState.Connecting? { return; }
        if !m.compatible {
          compatibilityFailed := true;
          Perform(Refused);
          var current := socket;
          socket := None;
          if current.Some? { Detach(current.value); }
          connectionState := Disconnected;
          return;
        }
        if socket.Some? { Perform(Greeted(socket.value)); }
        nextReconnectDelayMs := INITIAL_RECONNECT_DELAY_MS;
        connectionState := Connected;
        return;
      }
      if !connectionState.Connected? { return; }
      if socket.Some? { Perform(Delivered(socket.value, m.body)); }
    }

    method Close()
      modifies this
      ensures View() == old(Closed(View()))
    {
      if closed { return; }
      closed := true;
      if reconnectTimer.Some? {
        pending := pending - {reconnectTimer.value};
        reconnectTimer := None;
      }
      var current := socket;
      socket := None;
      if current.Some? { Detach(current.value); }
      connectionState := Disconnected;
      Perform(UserClosed);
    }

    method Send(body: string, fails: bool) returns (sent: bool)
      modifies this
      ensures View() == old(Step(View(), autoReconnect, UserSends(body, fails)))
      ensures sent <==> old(connectionState.Connected? && socket.Some?) && !fails
    {
      if !connectionState.Connected? || socket.None? { return false; }
      if fails {
        Perform(ErrorReported);
        return false;
      }
      Perform(Sent(socket.value, body));
      sent := true;
    }

    /** The callbacks: the platform calls them as long as they are attached. */
    method Handle(e: Event)
      modifies this
      ensures View() == old(Step(View(), autoReconnect, e))
    {
      match e
      case MessageFrom(from, m) => if from in attached && socket == Some(from) { Receive(m); }
      case ErrorFrom(from) => if from in attached && socket == Some(from) { Perform(ErrorReported); }
      case CloseFrom(from) =>
        if from in attached && socket == Some(from) {
          Detach(from);
          socket := None;
          connectionState := Disconnected;
          if !compatibilityFailed { ScheduleReconnect(); }
        }
      case TimerFires(h, fails) =>
        if h in pending {
          pending := pending - {h};
          reconnectTimer := None;
          Connect(fails);
        }
      case UserCloses => Close();
      case UserSends(body, fails) => var sent := Send(body, fails);
    }
  }

  /** The object over any events keeps what the runs keep. */
  method Live(autoReconnect: bool, firstFails: bool, events: seq<Event>) returns (client: CoreClient)
    ensures client.View() == Run(autoReconnect, firstFails, events)
    ensures Inv(client.View(), autoReconnect)
  {
    client := new CoreClient(autoReconnect, firstFails);
    for i := 0 to |events|
      invariant fresh(client) && client.autoReconnect == autoReconnect
      invariant client.View() == Run(autoReconnect, firstFails, events[..i])
    {
      assert events[..i+1][..i] == events[..i];
      client.Handle(events[i]);
    }
    assert events[..|events|] == events;
    RunKeepsInv(autoReconnect, firstFails, events);
  }
}
