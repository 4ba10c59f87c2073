/** Folding Pi's live events into view actions. */
module EventFolder {
  import opened Common
  import opened Session

  /** One content part of a message; `OtherPart` is anything the folders skip. */
  datatype Part =
    | TextPart(text: string)
    | ThinkingPart(thinking: string)
    | ToolCall(id: string, name: Option<string>, args: Option<string>)
    | OtherPart

  datatype Usage = Usage(totalTokens: Option<real>, cost: Option<real>)

  datatype Event =
    | MessageStart(role: Option<Role>, content: seq<Part>)
    | TextDelta(delta: string)
    | ThinkingDelta(delta: string)
    | MessageEnd(usage: Option<Usage>)
    | ToolStart(id: string, name: string, args: Option<string>)
    | ToolUpdate(id: string, name: string, args: Option<string>, partial: seq<Part>)
    | ToolEnd(id: string, name: string, isError: bool, outcome: seq<Part>)
    | AgentStart
    | AgentSettled
    | QueueUpdate(queue: Option<Queue>)
    | CompactionStart
    | CompactionEnd(estimatedTokensAfter: Option<real>, notice: string)
    | RetryStart(retry: Retry)
    | RetryEnd(failure: Option<string>)
    | ThinkingLevel(level: Option<string>)
    | IgnoredEvent

  /** All text parts, joined. */
  function ExtractText(parts: seq<Part>): string {
    if parts == [] then ""
    else (if parts[0].TextPart? then parts[0].text else "") + ExtractText(parts[1..])
  }

  function Digits(n: nat): string {
    if n < 10 then ["0123456789"[n]] else Digits(n / 10) + ["0123456789"[n % 10]]
  }

  /** The folder issues its own message ids while streaming. */
  function MessageId(n: nat): string { "m" + Digits(n) }

  lemma SameDigit(a: nat, b: nat)
    requires a < 10 && b < 10 && "0123456789"[a] == "0123456789"[b]
    ensures a == b
  {
    var digits := "0123456789";
    assert digits == ['0', '1', '2', '3', '4', '5', '6', '7', '8', '9'];
  }

  lemma DigitsNotEmpty(n: nat)
    ensures |Digits(n)| > 0
  {
  }

  /** The ids of different messages differ. */
  lemma {:induction false} DigitsInjective(m: nat, n: nat)
    requires Digits(m) == Digits(n)
    ensures m == n
    decreases m
  {
    var d, e := Digits(m), Digits(n);
    assert d[|d|-1] == "0123456789"[m % 10] && e[|e|-1] == "0123456789"[n % 10];
    SameDigit(m % 10, n % 10);
    if m >= 10 && n >= 10 {
      assert d[..|d|-1] == Digits(m / 10) && e[..|e|-1] == Digits(n / 10);
      DigitsInjective(m / 10, n / 10);
    } else {
      DigitsNotEmpty(m / 10);
      DigitsNotEmpty(n / 10);
    }
  }

  datatype FolderState = FolderState(count: nat, current: string, tokens: real, cost: real)

  const FOLDER_INIT := FolderState(0, "", 0.0, 0.0)

  function Plus(total: real, more: Option<real>): real {
    if more.Some? then total + more.value else total
  }

  /** The specification of one call of the folder. */
  function FoldEvent(f: FolderState, e: Event): (FolderState, seq<Action>) {
    match e
    case MessageStart(role, content) =>
      if role.None? then (f, [])
      else
        var id := MessageId(f.count + 1);
        var text := ExtractText(content);
        (f.(count := f.count + 1, current := id),
         if text == "" then [MessageAdded(id, role.value, false)]
         else [MessageAdded(id, role.value, false), TextAppended(id, text)])
    case TextDelta(delta) => (f, if f.current == "" then [] else [TextAppended(f.current, delta)])
    case ThinkingDelta(delta) => (f, if f.current == "" then [] else [ThinkingAppended(f.current, delta)])
    case MessageEnd(usage) =>
      if usage.None? || (usage.value.totalTokens.None? && usage.value.cost.None?) then (f, [])
      else
        var g := f.(tokens := Plus(f.tokens, usage.value.totalTokens), cost := Plus(f.cost, usage.value.cost));
        (g, [UsageChanged(g.tokens, g.cost)])
    case ToolStart(id, name, args) => (f, [ToolChanged(id, name, args, Running, None)])
    case ToolUpdate(id, name, args, partial) => (f, [ToolChanged(id, name, args, Running, Some(ExtractText(partial)))])
    case ToolEnd(id, name, isError, outcome) =>
      (f, [ToolChanged(id, name, None, if isError then Errored else Finished, Some(ExtractText(outcome)))])
    case AgentStart => (f, [BusyChanged(true)])
    case AgentSettled => (f, [BusyChanged(false)])
    case QueueUpdate(queue) => (f, if queue.Some? then [QueueChanged(queue.value)] else [])
    case CompactionStart => (f, [CompactionChanged(true, None)])
    case CompactionEnd(estimate, notice) => (f, [CompactionChanged(false, estimate), NoticeAdded(notice)])
    case RetryStart(retry) => (f, [RetryChanged(Some(retry))])
    case RetryEnd(failure) =>
      (f, if failure.Some? then [RetryChanged(None), NoticeAdded(failure.value)] else [RetryChanged(None)])
    case ThinkingLevel(level) => (f, if level.Some? then [ThinkingChanged(level.value, None)] else [])
    case IgnoredEvent => (f, [])
  }

  /** The folder object: it numbers the messages and accumulates the usage. */
  class Folder {
    var messageCount: nat
    var currentMessageId: string
    var totalTokens: real
    var totalCost: real

    function State(): FolderState
      reads this
    {
      FolderState(messageCount, currentMessageId, totalTokens, totalCost)
    }

    constructor ()
      ensures State() == FOLDER_INIT
    {
      messageCount, currentMessageId, totalTokens, totalCost := 0, "", 0.0, 0.0;
    }

    method Fold(e: Event) returns (actions: seq<Action>)
      modifies this
      ensures (State(), actions) == FoldEvent(old(State()), e)
    {
      actions := [];
      match e
      case MessageStart(role, content) =>
        if role.Some? {
          messageCount := messageCount + 1;
          currentMessageId := MessageId(messageCount);
          actions := [MessageAdded(currentMessageId, role.value, false)];
          var text := ExtractText(content);
          if text != "" { actions := [actions[0], TextAppended(currentMessageId, text)]; }
        }
      case TextDelta(delta) =>
        if currentMessageId != "" { actions := [TextAppended(currentMessageId, delta)]; }
      case ThinkingDelta(delta) =>
        if currentMessageId != "" { actions := [ThinkingAppended(currentMessageId, delta)]; }
      case MessageEnd(Some(usage)) =>
        var changed := false;
        if usage.totalTokens.Some? {
          totalTokens := totalTokens + usage.totalTokens.value;
          changed := true;
        }
        if usage.cost.Some? {
          totalCost := totalCost + usage.cost.value;
          changed := true;
        }
        if changed { actions := [UsageChanged(totalTokens, totalCost)]; }
      case ToolStart(id, name, args) => actions := [ToolChanged(id, name, args, Running, None)];
      case ToolUpdate(id, name, args, partial) =>
        actions := [ToolChanged(id, name, args, Running, Some(ExtractText(partial)))];
      case ToolEnd(id, name, isError, outcome) =>
        actions := [ToolChanged(id, name, None, if isError then Errored else Finished, Some(ExtractText(outcome)))];
      case MessageEnd(None) =>
      case AgentStart => actions := [BusyChanged(true)];
      case AgentSettled => actions := [BusyChanged(false)];
      case QueueUpdate(queue) =>
        if queue.Some? { actions := [QueueChanged(queue.value)]; }
      case CompactionStart => actions := [CompactionChanged(true, None)];
      case CompactionEnd(estimate, notice) => actions := [CompactionChanged(false, estimate), NoticeAdded(notice)];
      case RetryStart(retry) => actions := [RetryChanged(Some(retry))];
      case RetryEnd(failure) =>
        if failure.Some? { actions := [RetryChanged(None), NoticeAdded(failure.value)]; }
        else { actions := [RetryChanged(None)]; }
      case ThinkingLevel(level) =>
        if level.Some? { actions := [ThinkingChanged(level.value, None)]; }
      case IgnoredEvent =>
    }
  }
}
