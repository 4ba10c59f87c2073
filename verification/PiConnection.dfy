/**
 The request/response client over the child process. A request is a promise; it is settled by its
 own response, by its timer, by a failing send, or by closing.
 */
module PiConnection {
  import opened Common

  datatype Response = Response(id: nat, success: bool, body: string)

  datatype How = Answered(response: Response) | TimedOut | SendFailed | RejectedBy(error: string)

  datatype Settlement = Settlement(promise: nat, how: How)

  /**
   `pending` lists the requests in the order they were sent, `timers` those whose timer is set.
   Promises are numbered by the calls; the ids given to the child are the same numbers.
   */
  datatype State = State(pending: seq<nat>, timers: set<nat>, nextId: nat, closedError: Option<string>,
                         calls: nat, log: seq<Settlement>)

  datatype Event =
    | Send(fails: bool)
    | ResponseLine(response: Response)
    | OtherLine
    | TimerFires(id: nat)
    | Close
    | TransportClosed(error: Option<string>)

  const CLOSED := "Pi transport closed"

  function Without(pending: seq<nat>, id: nat): seq<nat> {
    if pending == [] then []
    else if pending[0] == id then Without(pending[1..], id)
    else [pending[0]] + Without(pending[1..], id)
  }

  function Rejections(pending: seq<nat>, error: string): seq<Settlement> {
    seq(|pending|, i requires 0 <= i < |pending| => Settlement(pending[i], RejectedBy(error)))
  }

  function AllRejected(s: State, error: string): State {
    if s.closedError.Some? then s
    else s.(closedError := Some(error), timers := {}, pending := [], log := s.log + Rejections(s.pending, error))
  }

  function Step(s: State, e: Event): State {
    match e
    case Send(fails) =>
      if s.closedError.Some? then
        s.(calls := s.calls + 1, log := s.log + [Settlement(s.calls + 1, RejectedBy(s.closedError.value))])
      else
        var id := s.nextId + 1;
        if fails then s.(nextId := id, calls := s.calls + 1, log := s.log + [Settlement(id, SendFailed)])
        else s.(nextId := id, calls := s.calls + 1, pending := s.pending + [id], timers := s.timers + {id})
    case ResponseLine(r) =>
      if r.id in s.pending
      then s.(pending := Without(s.pending, r.id), timers := s.timers - {r.id},
              log := s.log + [Settlement(r.id, Answered(r))])
      else s
    case OtherLine => s
    case TimerFires(id) =>
      if id in s.timers
      then s.(pending := Without(s.pending, id), timers := s.timers - {id}, log := s.log + [Settlement(id, TimedOut)])
      else s
    case Close => AllRejected(s, CLOSED)
    case TransportClosed(error) => AllRejected(s, if error.Some? then error.value else CLOSED)
  }

  const FRESH := State([], {}, 0, None, 0, [])

  function Run(events: seq<Event>): State {
    if events == [] then FRESH else Step(Run(events[..|events|-1]), events[|events|-1])
  }

  // ---------------------------------------------------------------- each request settles once

  /** No promise is settled twice. */
  predicate SettledOnce(log: seq<Settlement>) {
    forall i, j :: 0 <= i < j < |log| ==> log[i].promise != log[j].promise
  }

  predicate Settled(log: seq<Settlement>, promise: nat) { exists i :: 0 <= i < |log| && log[i].promise == promise }

  /** A response settles only the request it names. */
  predicate OwnAnswers(log: seq<Settlement>) {
    forall i :: 0 <= i < |log| && log[i].how.Answered? ==> log[i].how.response.id == log[i].promise
  }

  ghost predicate Inv(s: State) {
    && SettledOnce(s.log) && OwnAnswers(s.log) && NoRepeats(s.pending)
    && (forall i :: 0 <= i < |s.log| ==> 0 < s.log[i].promise <= s.calls)
    && (forall id :: id in s.pending ==> 0 < id <= s.calls && !Settled(s.log, id))
    // every promise made is pending or settled, and never both
    && (forall p :: 0 < p <= s.calls ==> p in s.pending || Settled(s.log, p))
    && (forall id :: id in s.timers <==> id in s.pending)
    && (s.closedError.None? ==> s.nextId == s.calls)
    && (s.closedError.Some? ==> s.pending == [])
  }

  lemma {:induction false} WithoutIs(pending: seq<nat>, id: nat)
    requires NoRepeats(pending)
    ensures NoRepeats(Without(pending, id))
    ensures forall k :: k in Without(pending, id) <==> k in pending && k != id
  {
    if pending != [] {
      WithoutIs(pending[1..], id);
      var rest := Without(pending[1..], id);
      assert forall k :: k in pending <==> k == pending[0] || k in pending[1..];
      if pending[0] != id {
        assert pending[0] !in pending[1..];
        assert forall k :: k in Without(pending, id) <==> k == pending[0] || k in rest;
      }
    }
  }

  lemma SettledConcat(log: seq<Settlement>, more: seq<Settlement>, p: nat)
    ensures Settled(log + more, p) <==> Settled(log, p) || Settled(more, p)
  {
    if Settled(log, p) {
      var i :| 0 <= i < |log| && log[i].promise == p;
      assert (log + more)[i].promise == p;
    }
    if Settled(more, p) {
      var i :| 0 <= i < |more| && more[i].promise == p;
      assert (log + more)[|log| + i].promise == p;
    }
  }

  lemma SettledNext(log: seq<Settlement>, s: Settlement)
    ensures forall p :: Settled(log + [s], p) <==> Settled(log, p) || p == s.promise
  {
    forall p ensures Settled(log + [s], p) <==> Settled(log, p) || p == s.promise {
      SettledConcat(log, [s], p);
      assert [s][0] == s;
    }
  }

  lemma LogNext(log: seq<Settlement>, s: Settlement)
    requires SettledOnce(log) && OwnAnswers(log) && !Settled(log, s.promise)
    requires s.how.Answered? ==> s.how.response.id == s.promise
    ensures SettledOnce(log + [s]) && OwnAnswers(log + [s])
  {
  }

  lemma SendKeepsInv(s: State, fails: bool)
    requires Inv(s)
    ensures Inv(Step(s, Send(fails)))
  {
    var p := s.calls + 1;
    assert !Settled(s.log, p);
    var entry := Settlement(p, if s.closedError.Some? then RejectedBy(s.closedError.value) else SendFailed);
    LogNext(s.log, entry);
    SettledNext(s.log, entry);
  }

  /** One request leaves the table as it is settled. */
  lemma SettleKeepsInv(s: State, id: nat, how: How)
    requires Inv(s) && id in s.pending && (how.Answered? ==> how.response.id == id)
    ensures Inv(s.(pending := Without(s.pending, id), timers := s.timers - {id}, log := s.log + [Settlement(id, how)]))
  {
    LogNext(s.log, Settlement(id, how));
    SettledNext(s.log, Settlement(id, how));
    WithoutIs(s.pending, id);
  }

  lemma FailPendingKeepsInv(s: State, error: string)
    requires Inv(s)
    ensures Inv(AllRejected(s, error))
  {
    if s.closedError.None? {
      var more := Rejections(s.pending, error);
      forall p | 0 < p <= s.calls ensures Settled(s.log + more, p) {
        SettledConcat(s.log, more, p);
        if p in s.pending {
          var i :| 0 <= i < |s.pending| && s.pending[i] == p;
          assert more[i].promise == p;
        }
      }
      forall i | 0 <= i < |s.log + more| ensures 0 < (s.log + more)[i].promise <= s.calls {
        if i >= |s.log| {
          assert more[i - |s.log|].promise == s.pending[i - |s.log|] && s.pending[i - |s.log|] in s.pending;
        }
      }
      forall i, j | 0 <= i < j < |s.log + more| ensures (s.log + more)[i].promise != (s.log + more)[j].promise {
        if i < |s.log| <= j {
          assert more[j - |s.log|].promise == s.pending[j - |s.log|];
          assert s.pending[j - |s.log|] in s.pending;
        }
      }
    }
  }

  lemma StepKeepsInv(s: State, e: Event)
    requires Inv(s)
    ensures Inv(Step(s, e))
  {
    match e
    case Send(fails) => SendKeepsInv(s, fails);
    case ResponseLine(r) => if r.id in s.pending { SettleKeepsInv(s, r.id, Answered(r)); }
    case OtherLine =>
    case TimerFires(id) => if id in s.timers { SettleKeepsInv(s, id, TimedOut); }
    case Close => FailPendingKeepsInv(s, CLOSED);
    case TransportClosed(error) => FailPendingKeepsInv(s, if error.Some? then error.value else CLOSED);
  }

  lemma {:induction false} RunKeepsInv(events: seq<Event>)
    ensures Inv(Run(events))
  {
    if events != [] {
      RunKeepsInv(events[..|events|-1]);
      StepKeepsInv(Run(events[..|events|-1]), events[|events|-1]);
    }
  }

  /** What has been settled stays settled the same way, and a closed client stays closed and empty. */
  lemma {:induction false} SettledForGood(before: seq<Event>, later: seq<Event>)
    ensures Run(before).log <= Run(before + later).log
    ensures Run(before).closedError.Some? ==>
              Run(before + later).closedError == Run(before).closedError && Run(before + later).pending == []
    decreases |later|
  {
    RunKeepsInv(before + later);
    if later == [] {
      assert before + later == before;
    } else {
      var events, n := before + later, |before + later| - 1;
      assert events[..n] == before + later[..|later|-1];
      SettledForGood(before, later[..|later|-1]);
    }
  }

  /** Once closed, every call ever made has been settled exactly once. */
  lemma ClosedSettlesAll(events: seq<Event>)
    requires Run(events).closedError.Some?
    ensures SettledOnce(Run(events).log)
    ensures forall p :: 0 < p <= Run(events).calls ==> Settled(Run(events).log, p)
  {
    RunKeepsInv(events);
  }

  // ---------------------------------------------------------------- the fate of a request, from the events alone

  function Calls(events: seq<Event>): nat {
    if events == [] then 0 else Calls(events[..|events|-1]) + if events[|events|-1].Send? then 1 else 0
  }

  /** The reason a closing event gives. */
  function ReasonOf(e: Event): Option<string> {
    match e
    case Close => Some(CLOSED)
    case TransportClosed(error) => if error.Some? then error else Some(CLOSED)
    case _ => None
  }

  /** The first closing event closes the client. */
  function ClosedBy(events: seq<Event>): Option<string> {
    if events == [] then None
    else
      var before := ClosedBy(events[..|events|-1]);
      if before.Some? then before else ReasonOf(events[|events|-1])
  }

  /** What one event is for a request that is still waiting. */
  function Decides(e: Event, promise: nat): Option<How> {
    match e
    case ResponseLine(r) => if r.id == promise then Some(Answered(r)) else None
    case TimerFires(id) => if id == promise then Some(TimedOut) else None
    case _ => if ReasonOf(e).Some? then Some(RejectedBy(ReasonOf(e).value)) else None
  }

  /** How the call itself goes: the request is refused, cannot be sent, or waits. */
  function CallGoes(closed: Option<string>, fails: bool): Option<How> {
    if closed.Some? then Some(RejectedBy(closed.value)) else if fails then Some(SendFailed) else None
  }

  /** The first event after the call that decides the request. */
  function Fate(events: seq<Event>, promise: nat): Option<How> {
    if events == [] then None
    else
      var before, e := events[..|events|-1], events[|events|-1];
      if promise > Calls(before) then
        if e.Send? && promise == Calls(before) + 1 then CallGoes(ClosedBy(before), e.fails) else None
      else if Fate(before, promise).Some? then Fate(before, promise)
      else Decides(e, promise)
  }

  /** The client is in the state that the events alone say. */
  ghost predicate AsDecided(s: State, events: seq<Event>) {
    && s.calls == Calls(events) && s.closedError == ClosedBy(events)
    && (forall p, how :: 0 < p <= s.calls ==> (Settlement(p, how) in s.log <==> Fate(events, p) == Some(how)))
    && (forall p :: 0 < p <= s.calls ==> (p in s.pending <==> Fate(events, p).None?))
  }

  lemma RejectionsAre(pending: seq<nat>, error: string)
    ensures forall p, how :: Settlement(p, how) in Rejections(pending, error) <==>
              p in pending && how == RejectedBy(error)
  {
    forall p | p in pending ensures Settlement(p, RejectedBy(error)) in Rejections(pending, error) {
      var i :| 0 <= i < |pending| && pending[i] == p;
      assert Rejections(pending, error)[i] == Settlement(p, RejectedBy(error));
    }
  }

  /** Every request settles as the first event that decides it says, and waits until then. */
  lemma {:induction false} EachRequestHasItsFate(events: seq<Event>)
    ensures AsDecided(Run(events), events)
  {
    if events != [] {
      var before, e := events[..|events|-1], events[|events|-1];
      EachRequestHasItsFate(before);
      RunKeepsInv(before);
      DecidedNext(Run(before), before, events, e);
    }
  }

  lemma DecidedNext(s: State, before: seq<Event>, events: seq<Event>, e: Event)
    requires Inv(s) && AsDecided(s, before) && events == before + [e]
    ensures AsDecided(Step(s, e), events)
  {
    assert events[..|events|-1] == before && events[|events|-1] == e;
    match e
    case Send(fails) =>
    case ResponseLine(r) => WithoutIs(s.pending, r.id);
    case OtherLine =>
    case TimerFires(id) => WithoutIs(s.pending, id);
    case Close => RejectionsAre(s.pending, CLOSED);
    case TransportClosed(error) => RejectionsAre(s.pending, ReasonOf(e).value);
  }

  // ---------------------------------------------------------------- the object

  lemma {:induction false} LastOut(before: seq<nat>, id: nat)
    requires id !in before
    ensures Without(before + [id], id) == before
  {
    if before == [] {
      assert ([] + [id])[1..] == [];
    } else {
      assert (before + [id])[1..] == before[1..] + [id];
      LastOut(before[1..], id);
    }
  }

  class PiClient {
    var pending: seq<nat>
    var timers: set<nat>
    var nextId: nat
    var closedError: Option<string>
    var calls: nat
    var log: seq<Settlement>

    function View(): State
      reads this
    {
      State(pending, timers, nextId, closedError, calls, log)
    }

    constructor ()
      ensures View() == FRESH
    {
      pending, timers, nextId, closedError, calls, log := [], {}, 0, None, 0, [];
    }

    method Settle(promise: nat, how: How)
      modifies this`log
      ensures log == old(log) + [Settlement(promise, how)]
    {
      log := log + [Settlement(promise, how)];
    }

    method Send(fails: bool)
      requires Inv(View())
      modifies this
      ensures View() == old(Step(View(), Event.Send(fails)))
    {
      calls := calls + 1;
      if closedError.Some? {
        Settle(calls, RejectedBy(closedError.value));
        return;
      }
      nextId := nextId + 1;
      var id := nextId;
      timers := timers + {id};
      pending := pending + [id];
      if fails {
        ghost var before := pending[..|pending|-1];
        LastOut(before, id);
        pending := Without(pending, id);
        timers := timers - {id};
        Settle(id, SendFailed);
      }
    }

    method HandleLine(e: Event)
      requires e.ResponseLine? || e.OtherLine?
      modifies this
      ensures View() == old(Step(View(), e))
    {
      if e.OtherLine? { return; }
      var id := e.response.id;
      if id in pending {
        pending := Without(pending, id);
        timers := timers - {id};
        Settle(id, Answered(e.response));
      }
    }

    method HandleTimer(id: nat)
      modifies this
      ensures View() == old(Step(View(), TimerFires(id)))
    {
      if id in timers {
        timers := timers - {id};
        pending := Without(pending, id);
        Settle(id, TimedOut);
      }
    }

    method FailPending(error: string)
      requires Inv(View())
      modifies this
      ensures View() == old(AllRejected(View(), error))
    {
      if closedError.Some? { return; }
      closedError := Some(error);
      for i := 0 to |pending|
        invariant View() == old(View()).(closedError := Some(error), log := log, timers := timers)
        invariant log == old(log) + Rejections(pending[..i], error)
        invariant forall id :: id in timers <==> id in pending[i..]
      {
        assert pending[..i+1] == pending[..i] + [pending[i]];
        assert pending[i..] == [pending[i]] + pending[i+1..];
        assert pending[i] !in pending[i+1..];
        timers := timers - {pending[i]};
        Settle(pending[i], RejectedBy(error));
        assert Rejections(pending[..i+1], error)
               == Rejections(pending[..i], error) + [Settlement(pending[i], RejectedBy(error))];
      }
      assert pending[..|pending|] == pending;
      pending := [];
    }

    method Handle(e: Event)
      requires Inv(View())
      modifies this
      ensures View() == old(Step(View(), e)) && Inv(View())
    {
      StepKeepsInv(View(), e);
      match e
      case Send(fails) => Send(fails);
      case ResponseLine(_) => HandleLine(e);
      case OtherLine => HandleLine(e);
      case TimerFires(id) => HandleTimer(id);
      case Close => FailPending(CLOSED);
      case TransportClosed(error) => FailPending(if error.Some? then error.value else CLOSED);
    }
  }

  /** The object over any events. */
  method Live(events: seq<Event>) returns (client: PiClient)
    ensures client.View() == Run(events) && Inv(client.View())
  {
    client := new PiClient();
    RunKeepsInv([]);
    for i := 0 to |events|
      invariant fresh(client) && client.View() == Run(events[..i]) && Inv(client.View())
    {
      assert events[..i+1][..i] == events[..i];
      client.Handle(events[i]);
    }
    assert events[..|events|] == events;
  }
}
