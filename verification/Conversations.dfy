/** Well-formed conversations, what they say, and the two forms in which they reach a ledger. */
module Conversations {
  import opened Common
  import opened Session
  import opened EventFolder
  import opened StoredEntries
  import opened Transcript

  // ---------------------------------------------------------------- conversations

  /** A tool call with its outcome: every call is executed and its result stored. */
  datatype Call = Call(id: string, name: string, args: Option<string>, outcome: seq<Part>, isError: bool)

  /** A part of an assistant message, with the pieces in which its text was streamed. */
  datatype Block =
    | TextBlock(deltas: seq<string>)
    | ThinkingBlock(deltas: seq<string>)
    | CallBlock(call: Call)

  /** What reaches the live ledger: Pi's events, questions to the user, the host's own markers. */
  datatype Live =
    | Pi(event: Event)
    | Ask(confirm: Confirm)
    | InUse(provider: string, modelId: string)
    | Say(text: string)

  datatype Turn =
    | UserTurn(id: string, parts: seq<Part>)
    | ModelTurn(provider: string, modelId: string)
    | AssistantTurn(id: string, blocks: seq<Block>, stopped: bool, usage: Option<Usage>,
                    schedule: seq<Live>, resultOrder: seq<nat>)

  function CallsOf(blocks: seq<Block>): seq<Call> {
    if blocks == [] then []
    else if blocks[0].CallBlock? then [blocks[0].call] + CallsOf(blocks[1..])
    else CallsOf(blocks[1..])
  }

  // the stored form

  function PartOfBlock(b: Block): Part {
    match b
    case TextBlock(deltas) => TextPart(Joined(deltas))
    case ThinkingBlock(deltas) => ThinkingPart(Joined(deltas))
    case CallBlock(call) => ToolCall(call.id, Some(call.name), call.args)
  }

  function PartsOf(blocks: seq<Block>): seq<Part> {
    if blocks == [] then [] else [PartOfBlock(blocks[0])] + PartsOf(blocks[1..])
  }

  function StoredResult(c: Call): Stored {
    StoredMessage(None, Some(ToolResult(Some(c.id), Some(c.name), c.isError, c.outcome)))
  }

  predicate InRange(order: seq<nat>, n: nat) { forall k :: 0 <= k < |order| ==> order[k] < n }

  function StoredResults(calls: seq<Call>, order: seq<nat>): seq<Stored>
    requires InRange(order, |calls|)
  {
    if order == [] then [] else [StoredResult(calls[order[0]])] + StoredResults(calls, order[1..])
  }

  /**
   A run of a message's tools: the calls start in order, run side by side, may ask the user and
   report partial output, and each ends once, with its outcome; `k` have started, `ended` have ended.
   */
  predicate GoodSchedule(calls: seq<Call>, k: nat, ended: set<nat>, schedule: seq<Live>)
    requires k <= |calls|
    decreases |schedule|
  {
    if schedule == [] then k == |calls| && (forall i :: 0 <= i < |calls| ==> i in ended)
    else
      match schedule[0]
      case Pi(ToolStart(id, name, args)) =>
        k < |calls| && id == calls[k].id && name == calls[k].name && GoodSchedule(calls, k + 1, ended, schedule[1..])
      case Pi(ToolUpdate(id, name, _, _)) =>
        (exists i :: 0 <= i < k && i !in ended && calls[i].id == id) && GoodSchedule(calls, k, ended, schedule[1..])
      case Pi(ToolEnd(id, name, isError, outcome)) =>
        exists i :: 0 <= i < k && i !in ended && calls[i].id == id && calls[i].isError == isError
                    && calls[i].outcome == outcome && GoodSchedule(calls, k, ended + {i}, schedule[1..])
      case Ask(_) => GoodSchedule(calls, k, ended, schedule[1..])
      case _ => false
  }

  /** A run of a message's tools that may be cut off anywhere. */
  predicate PartialSchedule(calls: seq<Call>, k: nat, ended: set<nat>, schedule: seq<Live>)
    requires k <= |calls|
    decreases |schedule|
  {
    if schedule == [] then true
    else
      match schedule[0]
      case Pi(ToolStart(id, name, args)) =>
        k < |calls| && id == calls[k].id && name == calls[k].name && PartialSchedule(calls, k + 1, ended, schedule[1..])
      case Pi(ToolUpdate(id, name, _, _)) =>
        (exists i :: 0 <= i < k && i !in ended && calls[i].id == id) && PartialSchedule(calls, k, ended, schedule[1..])
      case Pi(ToolEnd(id, name, isError, outcome)) =>
        exists i :: 0 <= i < k && i !in ended && calls[i].id == id && calls[i].isError == isError
                    && calls[i].outcome == outcome && PartialSchedule(calls, k, ended + {i}, schedule[1..])
      case Ask(_) => PartialSchedule(calls, k, ended, schedule[1..])
      case _ => false
  }

  /** How many tools start, and which ones end. */
  function Starts(schedule: seq<Live>): nat {
    if schedule == [] then 0
    else (if schedule[0].Pi? && schedule[0].event.ToolStart? then 1 else 0) + Starts(schedule[1..])
  }

  predicate Ends(schedule: seq<Live>, id: string) {
    schedule != []
    && ((schedule[0].Pi? && schedule[0].event.ToolEnd? && schedule[0].event.id == id) || Ends(schedule[1..], id))
  }

  /** A whole run is one in which every call starts and ends. */
  lemma {:induction false} GoodIsPartial(calls: seq<Call>, k: nat, ended: set<nat>, schedule: seq<Live>)
    requires k <= |calls| && GoodSchedule(calls, k, ended, schedule)
    ensures PartialSchedule(calls, k, ended, schedule) && k + Starts(schedule) == |calls|
    ensures forall i :: 0 <= i < |calls| ==> i in ended || Ends(schedule, calls[i].id)
    decreases |schedule|
  {
    if schedule != [] {
      match schedule[0]
      case Pi(ToolStart(_, _, _)) => GoodIsPartial(calls, k + 1, ended, schedule[1..]);
      case Pi(ToolEnd(id, _, isError, outcome)) =>
        var i :| 0 <= i < k && i !in ended && calls[i].id == id && calls[i].isError == isError
                 && calls[i].outcome == outcome && GoodSchedule(calls, k, ended + {i}, schedule[1..]);
        GoodIsPartial(calls, k, ended + {i}, schedule[1..]);
      case Pi(ToolUpdate(_, _, _, _)) => GoodIsPartial(calls, k, ended, schedule[1..]);
      case Ask(_) => GoodIsPartial(calls, k, ended, schedule[1..]);
      case _ =>
    }
  }

  predicate DistinctCalls(calls: seq<Call>) {
    forall i, j :: 0 <= i < j < |calls| ==> calls[i].id != calls[j].id
  }

  predicate GoodTurn(t: Turn) {
    match t
    case UserTurn(id, parts) => id != "" && forall p :: p in parts ==> p.TextPart? || p.OtherPart?
    case ModelTurn(_, _) => true
    case AssistantTurn(id, blocks, _, _, schedule, order) =>
      var calls := CallsOf(blocks);
      && id != "" && DistinctCalls(calls)
      && GoodSchedule(calls, 0, {}, schedule)
      && InRange(order, |calls|) && (forall i :: 0 <= i < |calls| ==> i in order)
  }

  /** What Pi stores of a turn makes sense; a reply may lack results. */
  predicate Storable(t: Turn) {
    match t
    case UserTurn(id, parts) => id != "" && forall p :: p in parts ==> p.TextPart? || p.OtherPart?
    case ModelTurn(_, _) => true
    case AssistantTurn(id, blocks, _, _, _, order) =>
      id != "" && DistinctCalls(CallsOf(blocks)) && InRange(order, |CallsOf(blocks)|)
  }

  function StoredTurn(t: Turn): seq<Stored>
    requires Storable(t)
  {
    match t
    case UserTurn(id, parts) => [StoredMessage(Some(id), Some(ChatBody(User, parts, false, None)))]
    case ModelTurn(provider, modelId) => [ModelChange(Some(provider), Some(modelId))]
    case AssistantTurn(id, blocks, stopped, usage, _, order) =>
      [StoredMessage(Some(id), Some(ChatBody(Assistant, PartsOf(blocks), stopped, usage)))]
      + StoredResults(CallsOf(blocks), order)
  }

  // the live form

  function DeltasOf(b: Block): seq<Live> {
    match b
    case TextBlock(deltas) => seq(|deltas|, i requires 0 <= i < |deltas| => Pi(TextDelta(deltas[i])))
    case ThinkingBlock(deltas) => seq(|deltas|, i requires 0 <= i < |deltas| => Pi(ThinkingDelta(deltas[i])))
    case CallBlock(_) => []
  }

  function AllDeltas(blocks: seq<Block>): seq<Live> {
    if blocks == [] then [] else DeltasOf(blocks[0]) + AllDeltas(blocks[1..])
  }

  function LiveTurn(t: Turn): seq<Live> {
    match t
    case UserTurn(_, parts) => [Pi(MessageStart(Some(User), parts))]
    case ModelTurn(provider, modelId) => [InUse(provider, modelId)]
    case AssistantTurn(_, blocks, _, _, schedule, _) =>
      [Pi(MessageStart(Some(Assistant), []))] + AllDeltas(blocks) + schedule
  }

  function TurnCalls(t: Turn): seq<Call> {
    if t.AssistantTurn? then CallsOf(t.blocks) else []
  }

  function Ids(calls: seq<Call>): set<string> { set c | c in calls :: c.id }

  function CallIds(turns: seq<Turn>): set<string> {
    if turns == [] then {} else CallIds(turns[..|turns|-1]) + Ids(TurnCalls(turns[|turns|-1]))
  }

  /** Tool call ids are unique in the conversation. */
  predicate GoodConversation(turns: seq<Turn>) {
    turns == [] ||
    (&& GoodConversation(turns[..|turns|-1]) && GoodTurn(turns[|turns|-1])
     && forall c :: c in TurnCalls(turns[|turns|-1]) ==> c.id !in CallIds(turns[..|turns|-1]))
  }

  function StoredConversation(turns: seq<Turn>): seq<Stored>
    requires GoodConversation(turns)
  {
    if turns == [] then [] else StoredConversation(turns[..|turns|-1]) + StoredTurn(turns[|turns|-1])
  }

  function LiveConversation(turns: seq<Turn>): seq<Live> {
    if turns == [] then [] else LiveConversation(turns[..|turns|-1]) + LiveTurn(turns[|turns|-1])
  }

  // ---------------------------------------------------------------- what each route says

  function TextIn(blocks: seq<Block>): string {
    if blocks == [] then ""
    else (if blocks[0].TextBlock? then Joined(blocks[0].deltas) else "") + TextIn(blocks[1..])
  }

  function ThinkingIn(blocks: seq<Block>): string {
    if blocks == [] then ""
    else (if blocks[0].ThinkingBlock? then Joined(blocks[0].deltas) else "") + ThinkingIn(blocks[1..])
  }

  function SaidTools(calls: seq<Call>): seq<Said> {
    if calls == [] then []
    else [SaidTool(calls[0].name, if calls[0].isError then Errored else Finished, ExtractText(calls[0].outcome))]
         + SaidTools(calls[1..])
  }

  /** A reply whose stored form shows its thinking as the answer. */
  predicate ThinkingOnly(t: Turn) {
    t.AssistantTurn? && t.stopped && TextIn(t.blocks) == "" && ThinkingIn(t.blocks) != ""
  }

  /** What a turn says; `recovered` tells whether a thinking-only reply shows its thinking as text. */
  function SaidTurn(t: Turn, recovered: bool): seq<Said> {
    match t
    case UserTurn(_, parts) => [SaidMessage(User, ExtractText(parts), "")]
    case ModelTurn(provider, modelId) => [SaidModel(provider, modelId)]
    case AssistantTurn(_, blocks, _, _, _, _) =>
      var text, thinking := TextIn(blocks), ThinkingIn(blocks);
      [if recovered && ThinkingOnly(t) then SaidMessage(Assistant, thinking, "")
       else SaidMessage(Assistant, text, thinking)]
      + SaidTools(CallsOf(blocks))
  }

  function SaidConversation(turns: seq<Turn>, recovered: bool): seq<Said> {
    if turns == [] then [] else SaidConversation(turns[..|turns|-1], recovered) + SaidTurn(turns[|turns|-1], recovered)
  }

  // ---------------------------------------------------------------- ledgers shaped like a turn

  lemma Joining(a: string, b: string, c: string)
    ensures a + b + c == a + (b + c)
  {
  }

  predicate Cards(es: seq<Entry>) { forall k :: 0 <= k < |es| ==> es[k].Tool? }

  predicate NoCard(es: seq<Entry>, id: string) { forall k :: 0 <= k < |es| ==> !IsCard(es[k], id) }

  predicate AllSettled(es: seq<Entry>) { forall k :: 0 <= k < |es| ==> !Active(es[k]) }

  lemma AppendText(pre: seq<Entry>, m: Entry, cards: seq<Entry>, text: string)
    requires m.Message? && Cards(cards)
    ensures ApplyEntries(pre + [m] + cards, TextAppended(m.messageId, text))
            == pre + [m.(text := m.text + text)] + cards
  {
    var es := pre + [m] + cards;
    var at := Last(es, e => IsMessage(e, m.messageId));
    assert es[|pre|] == m;
    assert forall k :: |pre| < k < |es| ==> es[k] == cards[k - |pre| - 1];
    assert at == Some(|pre|);
  }

  lemma AppendThinking(pre: seq<Entry>, m: Entry, cards: seq<Entry>, text: string)
    requires m.Message? && Cards(cards)
    ensures ApplyEntries(pre + [m] + cards, ThinkingAppended(m.messageId, text))
            == pre + [m.(thinking := m.thinking + text)] + cards
  {
    var es := pre + [m] + cards;
    var at := Last(es, e => IsMessage(e, m.messageId));
    assert es[|pre|] == m;
    assert forall k :: |pre| < k < |es| ==> es[k] == cards[k - |pre| - 1];
    assert at == Some(|pre|);
  }

  lemma AddCard(pre: seq<Entry>, cards: seq<Entry>, a: Action)
    requires a.ToolChanged? && NoCard(pre, a.toolCallId) && NoCard(cards, a.toolCallId)
    ensures ApplyEntries(pre + cards, a) == pre + (cards + [NewCard(a)])
  {
    var es := pre + cards;
    assert forall k :: 0 <= k < |es| ==> es[k] == if k < |pre| then pre[k] else cards[k - |pre|];
    assert pre + cards + [NewCard(a)] == pre + (cards + [NewCard(a)]);
  }

  lemma ChangeCard(pre: seq<Entry>, cards: seq<Entry>, i: nat, a: Action)
    requires a.ToolChanged? && i < |cards| && IsCard(cards[i], a.toolCallId)
    requires forall k :: i < k < |cards| ==> !IsCard(cards[k], a.toolCallId)
    ensures ApplyEntries(pre + cards, a) == pre + cards[i := ChangedCard(cards[i], a)]
  {
    var es := pre + cards;
    assert forall k :: |pre| <= k < |es| ==> es[k] == cards[k - |pre|];
    var at := Last(es, e => IsCard(e, a.toolCallId));
    assert es[|pre| + i] == cards[i];
    assert at == Some(|pre| + i);
  }

  /** The ledger has no card yet for any of the calls. */
  predicate Fresh(es: seq<Entry>, calls: seq<Call>) {
    forall c :: c in calls ==> NoCard(es, c.id)
  }

  predicate Final(e: Entry, c: Call) {
    IsCard(e, c.id) && e.toolName == c.name && e.status == (if c.isError then Errored else Finished)
    && e.result == Some(ExtractText(c.outcome))
  }

  /** The cards of the first `k` calls; those in `ended` show their outcome. */
  predicate CardsFor(cards: seq<Entry>, calls: seq<Call>, k: nat, ended: set<nat>) {
    && |cards| == k <= |calls|
    && (forall i :: 0 <= i < k ==> IsCard(cards[i], calls[i].id) && cards[i].toolName == calls[i].name)
    && (forall i :: 0 <= i < k && i in ended ==> Final(cards[i], calls[i]))
  }

  lemma OneCardForEachCall(cards: seq<Entry>, calls: seq<Call>, k: nat, ended: set<nat>, i: nat)
    requires CardsFor(cards, calls, k, ended) && DistinctCalls(calls) && i < k
    ensures forall j :: 0 <= j < k && j != i ==> !IsCard(cards[j], calls[i].id)
  {
  }

  /** The cards of the calls that have not ended are running, or wait for an answer. */
  predicate Open(cards: seq<Entry>, ended: set<nat>) {
    forall i :: 0 <= i < |cards| && i !in ended ==> Active(cards[i])
  }

  predicate AllFinal(cards: seq<Entry>, calls: seq<Call>) {
    |cards| == |calls| && forall i :: 0 <= i < |calls| ==> Final(cards[i], calls[i])
  }

  /** The cards of a ledger belong to these calls. */
  predicate CardsWithin(es: seq<Entry>, ids: set<string>) {
    forall k :: 0 <= k < |es| && es[k].Tool? ==> es[k].toolCallId in ids
  }

  lemma {:induction false} FinalCardsSay(cards: seq<Entry>, calls: seq<Call>)
    requires AllFinal(cards, calls)
    ensures SaidAll(cards) == SaidTools(calls) && AllSettled(cards) && CardsWithin(cards, Ids(calls))
    decreases |cards|
  {
    if cards != [] {
      assert Final(cards[0], calls[0]);
      FinalCardsSay(cards[1..], calls[1..]);
      assert forall k :: 1 <= k < |cards| ==> cards[k] == cards[1..][k - 1];
      forall k | 0 <= k < |cards| ensures cards[k].toolCallId in Ids(calls) {
        assert calls[k] in calls && Final(cards[k], calls[k]);
      }
    }
  }

  /** The calls after the first block. */
  lemma LaterCalls(blocks: seq<Block>)
    requires blocks != [] && DistinctCalls(CallsOf(blocks))
    ensures DistinctCalls(CallsOf(blocks[1..]))
    ensures forall c :: c in CallsOf(blocks[1..]) ==> c in CallsOf(blocks)
    ensures blocks[0].CallBlock? ==> blocks[0].call in CallsOf(blocks)
    ensures blocks[0].CallBlock? ==> forall c :: c in CallsOf(blocks[1..]) ==> c.id != blocks[0].call.id
  {
    var all, later := CallsOf(blocks), CallsOf(blocks[1..]);
    if blocks[0].CallBlock? {
      assert all[0] == blocks[0].call && forall k :: 0 <= k < |later| ==> later[k] == all[k + 1];
    }
  }

  lemma FreshFromWithin(es: seq<Entry>, ids: set<string>, calls: seq<Call>)
    requires CardsWithin(es, ids) && forall c :: c in calls ==> c.id !in ids
    ensures Fresh(es, calls)
  {
  }
}
