/** The ledger built from live events, and what interleaved notices and bookkeeping do to it. */
module LiveRoute {
  import opened Common
  import opened Session
  import opened EventFolder
  import opened StoredEntries
  import opened Transcript
  import opened Conversations

  /** The view actions for one thing that reaches the live ledger. */
  function LiveActions(f: FolderState, l: Live): (FolderState, seq<Action>) {
    match l
    case Pi(event) => FoldEvent(f, event)
    case Ask(confirm) => (f, [ConfirmRequested(confirm)])
    case InUse(provider, modelId) => (f, [ModelInUse(provider, modelId)])
    case Say(text) => (f, [NoticeAdded(text)])
  }

  function FoldLive(f: FolderState, run: seq<Live>): (FolderState, seq<Action>)
    decreases |run|
  {
    if run == [] then (f, [])
    else
      var (f1, first) := LiveActions(f, run[0]);
      var (f2, rest) := FoldLive(f1, run[1..]);
      (f2, first + rest)
  }

  lemma {:induction false} FoldLiveConcat(f: FolderState, a: seq<Live>, b: seq<Live>)
    ensures FoldLive(f, a + b).1 == FoldLive(f, a).1 + FoldLive(FoldLive(f, a).0, b).1
    ensures FoldLive(f, a + b).0 == FoldLive(FoldLive(f, a).0, b).0
    decreases |a|
  {
    if a == [] {
      assert a + b == b;
    } else {
      assert (a + b)[0] == a[0] && (a + b)[1..] == a[1..] + b;
      var (g, first) := LiveActions(f, a[0]);
      FoldLiveConcat(g, a[1..], b);
      var rest, later := FoldLive(g, a[1..]).1, FoldLive(FoldLive(g, a[1..]).0, b).1;
      assert FoldLive(f, a + b).1 == first + (rest + later);
      assert first + (rest + later) == (first + rest) + later;
    }
  }

  /** The entries after a run. */
  function Drawn(f: FolderState, es: seq<Entry>, run: seq<Live>): seq<Entry> {
    ApplyEach(es, FoldLive(f, run).1)
  }

  lemma DrawnConcat(f: FolderState, es: seq<Entry>, a: seq<Live>, b: seq<Live>)
    ensures Drawn(f, es, a + b) == Drawn(FoldLive(f, a).0, Drawn(f, es, a), b)
  {
    FoldLiveConcat(f, a, b);
    ApplyEachConcat(es, FoldLive(f, a).1, FoldLive(FoldLive(f, a).0, b).1);
  }

  lemma DrawnStep(f: FolderState, es: seq<Entry>, run: seq<Live>)
    requires run != []
    ensures Drawn(f, es, run) == Drawn(LiveActions(f, run[0]).0, ApplyEach(es, LiveActions(f, run[0]).1), run[1..])
    ensures FoldLive(f, run).0 == FoldLive(LiveActions(f, run[0]).0, run[1..]).0
  {
    ApplyEachConcat(es, LiveActions(f, run[0]).1, FoldLive(LiveActions(f, run[0]).0, run[1..]).1);
  }

  lemma OneAction(es: seq<Entry>, a: Action)
    ensures ApplyEach(es, [a]) == ApplyEntries(es, a)
  {
    assert [a][1..] == [];
  }

  // ---------------------------------------------------------------- what the folder keeps

  /** The ids of the messages that some actions add. */
  function AddedIds(actions: seq<Action>): seq<string> {
    if actions == [] then []
    else if actions[0].MessageAdded? then [actions[0].messageId] + AddedIds(actions[1..])
    else AddedIds(actions[1..])
  }

  lemma {:induction false} AddedIdsConcat(a: seq<Action>, b: seq<Action>)
    ensures AddedIds(a + b) == AddedIds(a) + AddedIds(b)
  {
    if a == [] {
      assert a + b == b;
    } else {
      assert (a + b)[1..] == a[1..] + b;
      AddedIdsConcat(a[1..], b);
    }
  }

  function IdsFrom(first: nat, n: nat): seq<string> { seq(n, i requires 0 <= i < n => MessageId(first + i)) }

  /** One event adds at most one message, under the next id. */
  lemma OneStepIds(f: FolderState, l: Live)
    ensures var (g, actions) := LiveActions(f, l);
            f.count <= g.count <= f.count + 1 && AddedIds(actions) == IdsFrom(f.count + 1, g.count - f.count)
  {
    var (g, actions) := LiveActions(f, l);
    if |actions| == 2 { assert AddedIds(actions[1..][1..]) == []; }
  }

  lemma IdsFromSplit(first: nat, m: nat, n: nat)
    ensures IdsFrom(first, m) + IdsFrom(first + m, n) == IdsFrom(first, m + n)
  {
  }

  lemma {:induction false} RunIds(f: FolderState, run: seq<Live>)
    ensures f.count <= FoldLive(f, run).0.count
    ensures AddedIds(FoldLive(f, run).1) == IdsFrom(f.count + 1, FoldLive(f, run).0.count - f.count)
    decreases |run|
  {
    if run != [] {
      var (g, first) := LiveActions(f, run[0]);
      OneStepIds(f, run[0]);
      RunIds(g, run[1..]);
      AddedIdsConcat(first, FoldLive(g, run[1..]).1);
      IdsFromSplit(f.count + 1, g.count - f.count, FoldLive(g, run[1..]).0.count - g.count);
    }
  }

  lemma MessageIdsDiffer(m: nat, n: nat)
    requires m != n
    ensures MessageId(m) != MessageId(n)
  {
    assert MessageId(m)[1..] == Digits(m) && MessageId(n)[1..] == Digits(n);
    if Digits(m) == Digits(n) { DigitsInjective(m, n); }
  }

  lemma IdsFromDiffer(first: nat, n: nat)
    ensures NoRepeats(IdsFrom(first, n))
  {
    var ids := IdsFrom(first, n);
    forall i, j | 0 <= i < j < |ids| ensures ids[i] != ids[j] { MessageIdsDiffer(first + i, first + j); }
  }

  /** Over any run of events, the folder gives every message an id of its own. */
  lemma EachMessageHasItsOwnId(run: seq<Live>)
    ensures NoRepeats(AddedIds(FoldLive(FOLDER_INIT, run).1))
  {
    RunIds(FOLDER_INIT, run);
    IdsFromDiffer(1, FoldLive(FOLDER_INIT, run).0.count);
  }

  /** The tokens that the messages of a run report. */
  function TokensIn(run: seq<Live>): real {
    if run == [] then 0.0
    else
      (match run[0]
       case Pi(MessageEnd(Some(Usage(Some(tokens), _)))) => tokens
       case _ => 0.0) + TokensIn(run[1..])
  }

  /** The running total is the sum of what was reported, whatever came in between. */
  lemma {:induction false} TokensAddUp(f: FolderState, run: seq<Live>)
    ensures FoldLive(f, run).0.tokens == f.tokens + TokensIn(run)
    decreases |run|
  {
    if run != [] { TokensAddUp(LiveActions(f, run[0]).0, run[1..]); }
  }

  // ---------------------------------------------------------------- the deltas of a reply

  lemma {:induction false} TextDeltas(f: FolderState, es: seq<Entry>, m: Entry, deltas: seq<string>)
    requires m.Message? && f.current == m.messageId != ""
    ensures var run := DeltasOf(TextBlock(deltas));
            Drawn(f, es + [m], run) == es + [m.(text := m.text + Joined(deltas))] && FoldLive(f, run).0 == f
    decreases |deltas|
  {
    var run := DeltasOf(TextBlock(deltas));
    if deltas == [] {
      assert m.text + "" == m.text;
    } else {
      assert run[1..] == DeltasOf(TextBlock(deltas[1..]));
      DrawnStep(f, es + [m], run);
      OneAction(es + [m], TextAppended(m.messageId, deltas[0]));
      AppendText(es, m, [], deltas[0]);
      var m' := m.(text := m.text + deltas[0]);
      assert es + [m] + [] == es + [m] && es + [m'] + [] == es + [m'];
      TextDeltas(f, es, m', deltas[1..]);
      Joining(m.text, deltas[0], Joined(deltas[1..]));
    }
  }

  lemma {:induction false} ThinkingDeltas(f: FolderState, es: seq<Entry>, m: Entry, deltas: seq<string>)
    requires m.Message? && f.current == m.messageId != ""
    ensures var run := DeltasOf(ThinkingBlock(deltas));
            Drawn(f, es + [m], run) == es + [m.(thinking := m.thinking + Joined(deltas))] && FoldLive(f, run).0 == f
    decreases |deltas|
  {
    var run := DeltasOf(ThinkingBlock(deltas));
    if deltas == [] {
      assert m.thinking + "" == m.thinking;
    } else {
      assert run[1..] == DeltasOf(ThinkingBlock(deltas[1..]));
      DrawnStep(f, es + [m], run);
      OneAction(es + [m], ThinkingAppended(m.messageId, deltas[0]));
      AppendThinking(es, m, [], deltas[0]);
      var m' := m.(thinking := m.thinking + deltas[0]);
      assert es + [m] + [] == es + [m] && es + [m'] + [] == es + [m'];
      ThinkingDeltas(f, es, m', deltas[1..]);
      Joining(m.thinking, deltas[0], Joined(deltas[1..]));
    }
  }

  /** However a reply was cut into deltas, its message ends with its text and its thinking. */
  lemma {:induction false} Deltas(f: FolderState, es: seq<Entry>, m: Entry, blocks: seq<Block>)
    requires m.Message? && f.current == m.messageId != ""
    ensures Drawn(f, es + [m], AllDeltas(blocks))
            == es + [m.(text := m.text + TextIn(blocks), thinking := m.thinking + ThinkingIn(blocks))]
    ensures FoldLive(f, AllDeltas(blocks)).0 == f
    decreases |blocks|
  {
    assert forall s: string :: s + "" == s && "" + s == s;
    if blocks != [] {
      var b, rest := blocks[0], blocks[1..];
      var m' := match b
        case TextBlock(deltas) => m.(text := m.text + Joined(deltas))
        case ThinkingBlock(deltas) => m.(thinking := m.thinking + Joined(deltas))
        case CallBlock(_) => m;
      match b {
        case TextBlock(deltas) => TextDeltas(f, es, m, deltas); Joining(m.text, Joined(deltas), TextIn(rest));
        case ThinkingBlock(deltas) =>
          ThinkingDeltas(f, es, m, deltas);
          Joining(m.thinking, Joined(deltas), ThinkingIn(rest));
        case CallBlock(_) =>
      }
      DrawnConcat(f, es + [m], DeltasOf(b), AllDeltas(rest));
      FoldLiveConcat(f, DeltasOf(b), AllDeltas(rest));
      Deltas(f, es, m', rest);
    }
  }

  // ---------------------------------------------------------------- the tools of a reply

  /** A question to the user marks a running card, and no settled one. */
  lemma AskedCards(pre: seq<Entry>, cards: seq<Entry>, calls: seq<Call>, k: nat, ended: set<nat>, confirm: Confirm)
    returns (cards': seq<Entry>)
    requires AllSettled(pre) && CardsFor(cards, calls, k, ended) && Open(cards, ended)
    ensures CardsFor(cards', calls, k, ended) && Open(cards', ended)
    ensures ApplyEntries(pre + cards, ConfirmRequested(confirm)) == pre + cards'
  {
    var es := pre + cards;
    var at := Last(es, Active);
    if at.None? {
      cards' := cards;
    } else {
      var i := at.value - |pre|;
      assert es[at.value] == cards[i];
      cards' := cards[i := cards[i].(status := Pending, confirm := Some(confirm))];
    }
  }

  lemma StartedCard(pre: seq<Entry>, cards: seq<Entry>, calls: seq<Call>, k: nat, ended: set<nat>, args: Option<string>)
    returns (cards': seq<Entry>)
    requires Fresh(pre, calls) && CardsFor(cards, calls, k, ended) && DistinctCalls(calls) && k < |calls|
    requires Open(cards, ended) && forall i :: i in ended ==> i < k
    ensures CardsFor(cards', calls, k + 1, ended) && Open(cards', ended)
    ensures ApplyEntries(pre + cards, ToolChanged(calls[k].id, calls[k].name, args, Running, None)) == pre + cards'
  {
    var a := ToolChanged(calls[k].id, calls[k].name, args, Running, None);
    assert calls[k] in calls;
    assert NoCard(cards, calls[k].id);
    AddCard(pre, cards, a);
    cards' := cards + [NewCard(a)];
  }

  lemma ChangedCards(pre: seq<Entry>, cards: seq<Entry>, calls: seq<Call>, k: nat, ended: set<nat>, i: nat, a: Action)
    returns (cards': seq<Entry>)
    requires CardsFor(cards, calls, k, ended) && DistinctCalls(calls) && i < k && i !in ended
    requires a.ToolChanged? && a.toolCallId == calls[i].id && Open(cards, ended)
    ensures CardsFor(cards', calls, k, ended) && Open(cards', ended + {i})
    ensures a.status.Running? ==> Open(cards', ended)
    ensures a.status == (if calls[i].isError then Errored else Finished)
            && a.result == Some(ExtractText(calls[i].outcome))
            ==> CardsFor(cards', calls, k, ended + {i})
    ensures ApplyEntries(pre + cards, a) == pre + cards'
  {
    OneCardForEachCall(cards, calls, k, ended, i);
    ChangeCard(pre, cards, i, a);
    cards' := cards[i := ChangedCard(cards[i], a)];
  }

  /** What an event adds to the calls that have started and ended. */
  predicate Advances(calls: seq<Call>, k: nat, ended: set<nat>, l: Live, k': nat, ended': set<nat>) {
    match l
    case Pi(ToolStart(_, _, _)) => k' == k + 1 && ended' == ended
    case Pi(ToolEnd(id, _, _, _)) =>
      k' == k && exists i :: 0 <= i < |calls| && calls[i].id == id && ended' == ended + {i}
    case _ => k' == k && ended' == ended
  }

  /** Nothing is counted twice, and nothing is left out. */
  lemma Tally(calls: seq<Call>, k: nat, ended: set<nat>, schedule: seq<Live>, k': nat, ended': set<nat>)
    requires DistinctCalls(calls) && schedule != [] && Advances(calls, k, ended, schedule[0], k', ended')
    ensures k' + Starts(schedule[1..]) == k + Starts(schedule)
    ensures forall j :: 0 <= j < |calls| ==>
              (j in ended' || Ends(schedule[1..], calls[j].id) <==> j in ended || Ends(schedule, calls[j].id))
  {
    if schedule[0].Pi? && schedule[0].event.ToolEnd? {
      var i :| 0 <= i < |calls| && calls[i].id == schedule[0].event.id && ended' == ended + {i};
      forall j | 0 <= j < |calls|
        ensures Ends(schedule, calls[j].id) <==> j == i || Ends(schedule[1..], calls[j].id)
      {
        assert j != i ==> calls[j].id != calls[i].id;
      }
    }
  }

  lemma EndedCard(f: FolderState, pre: seq<Entry>, cards: seq<Entry>, calls: seq<Call>, k: nat, ended: set<nat>,
                  schedule: seq<Live>) returns (cards': seq<Entry>, i: nat)
    requires k <= |calls| && schedule != [] && PartialSchedule(calls, k, ended, schedule) && DistinctCalls(calls)
    requires schedule[0].Pi? && schedule[0].event.ToolEnd? && CardsFor(cards, calls, k, ended) && Open(cards, ended)
    ensures i < k && calls[i].id == schedule[0].event.id && PartialSchedule(calls, k, ended + {i}, schedule[1..])
    ensures CardsFor(cards', calls, k, ended + {i}) && Open(cards', ended + {i})
    ensures ApplyEntries(pre + cards, LiveActions(f, schedule[0]).1[0]) == pre + cards'
  {
    var e := schedule[0].event;
    i :| 0 <= i < k && i !in ended && calls[i].id == e.id && calls[i].isError == e.isError
         && calls[i].outcome == e.outcome && PartialSchedule(calls, k, ended + {i}, schedule[1..]);
    cards' := ChangedCards(pre, cards, calls, k, ended, i, LiveActions(f, schedule[0]).1[0]);
  }

  lemma ScheduleStep(f: FolderState, pre: seq<Entry>, cards: seq<Entry>, calls: seq<Call>, k: nat, ended: set<nat>,
                     schedule: seq<Live>) returns (cards': seq<Entry>, k': nat, ended': set<nat>)
    requires k <= |calls| && schedule != [] && PartialSchedule(calls, k, ended, schedule)
    requires DistinctCalls(calls) && Fresh(pre, calls) && AllSettled(pre)
    requires CardsFor(cards, calls, k, ended) && Open(cards, ended) && forall i :: i in ended ==> i < k
    ensures k' <= |calls| && PartialSchedule(calls, k', ended', schedule[1..])
    ensures CardsFor(cards', calls, k', ended') && Open(cards', ended') && forall i :: i in ended' ==> i < k'
    ensures Advances(calls, k, ended, schedule[0], k', ended')
    ensures LiveActions(f, schedule[0]).0 == f
    ensures ApplyEach(pre + cards, LiveActions(f, schedule[0]).1) == pre + cards'
  {
    k', ended' := k, ended;
    var a := LiveActions(f, schedule[0]).1[0];
    OneAction(pre + cards, a);
    match schedule[0] {
      case Pi(ToolStart(id, name, args)) =>
        cards' := StartedCard(pre, cards, calls, k, ended, args);
        k' := k + 1;
      case Pi(ToolUpdate(id, name, args, partial)) =>
        var i :| 0 <= i < k && i !in ended && calls[i].id == id;
        cards' := ChangedCards(pre, cards, calls, k, ended, i, a);
      case Pi(ToolEnd(id, name, isError, outcome)) =>
        var i;
        cards', i := EndedCard(f, pre, cards, calls, k, ended, schedule);
        ended' := ended + {i};
      case Ask(confirm) => cards' := AskedCards(pre, cards, calls, k, ended, confirm);
      case _ =>
    }
  }

  /**
   Whatever the interleaving of the tools, and wherever it is cut off: the calls that have ended show
   their outcome, the others that have started run or wait.
   */
  lemma {:induction false} Schedule(f: FolderState, pre: seq<Entry>, cards: seq<Entry>, calls: seq<Call>, k: nat,
                                    ended: set<nat>, schedule: seq<Live>) returns (cards': seq<Entry>, ended': set<nat>)
    requires k <= |calls| && PartialSchedule(calls, k, ended, schedule)
    requires DistinctCalls(calls) && Fresh(pre, calls) && AllSettled(pre)
    requires CardsFor(cards, calls, k, ended) && Open(cards, ended) && forall i :: i in ended ==> i < k
    ensures CardsFor(cards', calls, k + Starts(schedule), ended') && Open(cards', ended')
    ensures forall i :: 0 <= i < |calls| ==> (i in ended' <==> i in ended || Ends(schedule, calls[i].id))
    ensures Drawn(f, pre + cards, schedule) == pre + cards' && FoldLive(f, schedule).0 == f
    decreases |schedule|
  {
    if schedule == [] {
      cards', ended' := cards, ended;
    } else {
      DrawnStep(f, pre + cards, schedule);
      var next, k1, ended1 := ScheduleStep(f, pre, cards, calls, k, ended, schedule);
      Tally(calls, k, ended, schedule, k1, ended1);
      cards', ended' := Schedule(f, pre, next, calls, k1, ended1, schedule[1..]);
    }
  }

  // ---------------------------------------------------------------- whole turns

  /** What a turn added to the ledger, and what later turns need to know of it. */
  predicate AddedBy(added: seq<Entry>, turn: Turn) {
    SaidAll(added) == SaidTurn(turn, false) && CardsWithin(added, Ids(TurnCalls(turn)))
    && AllSettled(added) && NoNotices(added)
  }

  function Streaming(f: FolderState): Entry { Message(MessageId(f.count + 1), false, Assistant, "", "") }

  function Streamed(f: FolderState, turn: Turn): Entry
    requires turn.AssistantTurn?
  {
    Message(MessageId(f.count + 1), false, Assistant, TextIn(turn.blocks), ThinkingIn(turn.blocks))
  }

  function AfterStart(f: FolderState): FolderState { f.(count := f.count + 1, current := MessageId(f.count + 1)) }

  lemma LiveReplySays(f: FolderState, turn: Turn, cards: seq<Entry>)
    requires turn.AssistantTurn? && AllFinal(cards, CallsOf(turn.blocks))
    ensures AddedBy([Streamed(f, turn)] + cards, turn)
  {
    FinalCardsSay(cards, CallsOf(turn.blocks));
    var added := [Streamed(f, turn)] + cards;
    assert added[1..] == cards;
    assert forall i :: 0 <= i < |cards| ==> Final(cards[i], CallsOf(turn.blocks)[i]);
    assert forall i :: 1 <= i < |added| ==> added[i] == cards[i - 1];
  }

  lemma StartAndDeltas(f: FolderState, es: seq<Entry>, turn: Turn)
    requires turn.AssistantTurn?
    ensures Drawn(f, es, LiveTurn(turn)) == Drawn(AfterStart(f), es + [Streamed(f, turn)], turn.schedule)
    ensures FoldLive(f, LiveTurn(turn)).0 == FoldLive(AfterStart(f), turn.schedule).0
  {
    var run, deltas := LiveTurn(turn), AllDeltas(turn.blocks);
    assert run[0] == Pi(MessageStart(Some(Assistant), [])) && run[1..] == deltas + turn.schedule;
    DrawnStep(f, es, run);
    OneAction(es, MessageAdded(MessageId(f.count + 1), Assistant, false));
    DrawnConcat(AfterStart(f), es + [Streaming(f)], deltas, turn.schedule);
    FoldLiveConcat(AfterStart(f), deltas, turn.schedule);
    Deltas(AfterStart(f), es, Streaming(f), turn.blocks);
    assert forall s: string :: "" + s == s;
  }

  /** The tools of a reply from the first event on. */
  predicate MayRun(turn: Turn) {
    turn.AssistantTurn? && DistinctCalls(CallsOf(turn.blocks))
    && PartialSchedule(CallsOf(turn.blocks), 0, {}, turn.schedule)
  }

  lemma ScheduleFromStart(f: FolderState, pre: seq<Entry>, turn: Turn) returns (cards: seq<Entry>, ended: set<nat>)
    requires MayRun(turn) && Fresh(pre, CallsOf(turn.blocks)) && AllSettled(pre)
    ensures CardsFor(cards, CallsOf(turn.blocks), Starts(turn.schedule), ended) && Open(cards, ended)
    ensures forall i :: 0 <= i < |CallsOf(turn.blocks)| ==>
              (i in ended <==> Ends(turn.schedule, CallsOf(turn.blocks)[i].id))
    ensures Drawn(f, pre, turn.schedule) == pre + cards
  {
    assert pre + [] == pre;
    cards, ended := Schedule(f, pre, [], CallsOf(turn.blocks), 0, {}, turn.schedule);
  }

  lemma Regrouped(a: seq<Entry>, b: seq<Entry>, c: seq<Entry>)
    ensures a + b + c == a + (b + c)
  {
  }

  /** A streamed reply, wherever its tools are cut off: its message, and the cards of the calls that have started. */
  lemma DrawnReply(f: FolderState, es: seq<Entry>, turn: Turn) returns (cards: seq<Entry>, ended: set<nat>)
    requires MayRun(turn) && Fresh(es, CallsOf(turn.blocks)) && AllSettled(es)
    ensures CardsFor(cards, CallsOf(turn.blocks), Starts(turn.schedule), ended) && Open(cards, ended)
    ensures forall i :: 0 <= i < |CallsOf(turn.blocks)| ==>
              (i in ended <==> Ends(turn.schedule, CallsOf(turn.blocks)[i].id))
    ensures Drawn(f, es, LiveTurn(turn)) == es + ([Streamed(f, turn)] + cards)
  {
    cards, ended := ScheduleFromStart(AfterStart(f), es + [Streamed(f, turn)], turn);
    StartAndDeltas(f, es, turn);
    Regrouped(es, [Streamed(f, turn)], cards);
  }

  lemma LiveReply(f: FolderState, es: seq<Entry>, turn: Turn) returns (added: seq<Entry>)
    requires turn.AssistantTurn? && GoodTurn(turn) && Fresh(es, CallsOf(turn.blocks)) && AllSettled(es)
    ensures Drawn(f, es, LiveTurn(turn)) == es + added
    ensures AddedBy(added, turn)
  {
    GoodIsPartial(CallsOf(turn.blocks), 0, {}, turn.schedule);
    var cards, ended := DrawnReply(f, es, turn);
    LiveReplySays(f, turn, cards);
    added := [Streamed(f, turn)] + cards;
  }

  lemma LiveUserMessage(f: FolderState, es: seq<Entry>, parts: seq<Part>) returns (m: Entry)
    ensures m == Message(MessageId(f.count + 1), false, User, ExtractText(parts), "")
    ensures ApplyEach(es, LiveActions(f, Pi(MessageStart(Some(User), parts))).1) == es + [m]
  {
    var id, text := MessageId(f.count + 1), ExtractText(parts);
    var m0 := Message(id, false, User, "", "");
    m := m0.(text := text);
    OneAction(es, MessageAdded(id, User, false));
    if text != "" {
      ApplyEachConcat(es, [MessageAdded(id, User, false)], [TextAppended(id, text)]);
      OneAction(es + [m0], TextAppended(id, text));
      AppendText(es, m0, [], text);
      assert es + [m0] + [] == es + [m0] && es + [m] + [] == es + [m] && "" + text == text;
      assert [MessageAdded(id, User, false)] + [TextAppended(id, text)]
             == [MessageAdded(id, User, false), TextAppended(id, text)];
    }
  }

  lemma LiveTurnSays(f: FolderState, es: seq<Entry>, turn: Turn) returns (added: seq<Entry>)
    requires GoodTurn(turn) && Fresh(es, TurnCalls(turn)) && AllSettled(es)
    ensures Drawn(f, es, LiveTurn(turn)) == es + added
    ensures AddedBy(added, turn)
  {
    match turn
    case ModelTurn(provider, modelId) =>
      DrawnStep(f, es, LiveTurn(turn));
      OneAction(es, ModelInUse(provider, modelId));
      added := [Model(provider, modelId)];
      assert added[1..] == [];
    case UserTurn(_, parts) =>
      DrawnStep(f, es, LiveTurn(turn));
      var m := LiveUserMessage(f, es, parts);
      added := [m];
      assert added[1..] == [];
    case AssistantTurn(_, _, _, _, _, _) => added := LiveReply(f, es, turn);
  }

  /** The ledger built from the live conversation, without anything in between. */
  lemma {:induction false} LiveConversationSays(f: FolderState, turns: seq<Turn>) returns (es: seq<Entry>)
    requires GoodConversation(turns)
    ensures es == Drawn(f, [], LiveConversation(turns))
    ensures SaidAll(es) == SaidConversation(turns, false) && CardsWithin(es, CallIds(turns)) && AllSettled(es)
            && NoNotices(es)
    decreases |turns|
  {
    if turns == [] {
      es := [];
    } else {
      var before, turn := turns[..|turns|-1], turns[|turns|-1];
      var es0 := LiveConversationSays(f, before);
      FreshFromWithin(es0, CallIds(before), TurnCalls(turn));
      DrawnConcat(f, [], LiveConversation(before), LiveTurn(turn));
      var added := LiveTurnSays(FoldLive(f, LiveConversation(before)).0, es0, turn);
      es := es0 + added;
      SaidAllConcat(es0, added);
    }
  }

  // ---------------------------------------------------------------- what comes in between

  /** Notices, usage, busy, queue, compaction and retry reports: they may come at any moment. */
  predicate IsAside(l: Live) {
    match l
    case Say(_) => true
    case Pi(MessageStart(role, _)) => role.None?
    case Pi(TextDelta(_)) => false
    case Pi(ThinkingDelta(_)) => false
    case Pi(ToolStart(_, _, _)) => false
    case Pi(ToolUpdate(_, _, _, _)) => false
    case Pi(ToolEnd(_, _, _, _)) => false
    case Pi(_) => true
    case _ => false
  }

  function WithoutAsides(run: seq<Live>): seq<Live> {
    if run == [] then [] else (if IsAside(run[0]) then [] else [run[0]]) + WithoutAsides(run[1..])
  }

  /** Apart from the usage, which asides may add to. */
  predicate SameMessage(f: FolderState, g: FolderState) { f.count == g.count && f.current == g.current }

  lemma {:induction false} ApplyEachWithoutNotices(es: seq<Entry>, actions: seq<Action>)
    requires forall a :: a in actions ==> !a.NoticeAdded?
    ensures Meaningful(ApplyEach(es, actions)) == ApplyEach(Meaningful(es), actions)
    decreases |actions|
  {
    if actions != [] {
      ApplyWithoutNotices(es, actions[0]);
      ApplyEachWithoutNotices(ApplyEntries(es, actions[0]), actions[1..]);
    }
  }

  /** Actions that leave the entries alone, but for notices. */
  predicate DrawsNothing(a: Action) {
    a.NoticeAdded? || a.UsageChanged? || a.BusyChanged? || a.ContextChanged? || a.ThinkingChanged?
    || a.CompactionChanged? || a.RetryChanged? || a.QueueChanged?
  }

  lemma OneDrawsNothing(es: seq<Entry>, a: Action)
    requires DrawsNothing(a)
    ensures a.NoticeAdded? || ApplyEntries(es, a) == es
  {
    match a
    case NoticeAdded(_) =>
    case UsageChanged(_, _) =>
    case BusyChanged(_) =>
    case ContextChanged(_) =>
    case ThinkingChanged(_, _) =>
    case CompactionChanged(_, _) =>
    case RetryChanged(_) =>
    case QueueChanged(_) =>
  }

  lemma {:induction false} NothingDrawn(es: seq<Entry>, actions: seq<Action>)
    requires forall a :: a in actions ==> DrawsNothing(a)
    ensures Meaningful(ApplyEach(es, actions)) == Meaningful(es)
    decreases |actions|
  {
    if actions != [] {
      ApplyWithoutNotices(es, actions[0]);
      OneDrawsNothing(Meaningful(es), actions[0]);
      NothingDrawn(ApplyEntries(es, actions[0]), actions[1..]);
    }
  }

  lemma AsideDrawsNothing(f: FolderState, l: Live)
    requires IsAside(l)
    ensures SameMessage(LiveActions(f, l).0, f)
    ensures forall a :: a in LiveActions(f, l).1 ==> DrawsNothing(a)
  {
  }

  lemma OtherwiseSame(f: FolderState, g: FolderState, l: Live)
    requires !IsAside(l) && SameMessage(f, g)
    ensures SameMessage(LiveActions(f, l).0, LiveActions(g, l).0)
    ensures LiveActions(f, l).1 == LiveActions(g, l).1
    ensures forall a :: a in LiveActions(f, l).1 ==> !a.NoticeAdded?
  {
  }

  /** What comes in between does not change what the transcript says. */
  lemma {:induction false} AsidesDoNotMatter(f: FolderState, g: FolderState, es: seq<Entry>, run: seq<Live>)
    requires SameMessage(f, g)
    ensures Meaningful(Drawn(f, es, run)) == Drawn(g, Meaningful(es), WithoutAsides(run))
    decreases |run|
  {
    if run != [] {
      var l := run[0];
      var es' := ApplyEach(es, LiveActions(f, l).1);
      DrawnStep(f, es, run);
      if IsAside(l) {
        AsideDrawsNothing(f, l);
        NothingDrawn(es, LiveActions(f, l).1);
        AsidesDoNotMatter(LiveActions(f, l).0, g, es', run[1..]);
        assert WithoutAsides(run) == WithoutAsides(run[1..]);
      } else {
        OtherwiseSame(f, g, l);
        ApplyEachWithoutNotices(es, LiveActions(f, l).1);
        AsidesDoNotMatter(LiveActions(f, l).0, LiveActions(g, l).0, es', run[1..]);
        var kept := WithoutAsides(run);
        assert kept[0] == l && kept[1..] == WithoutAsides(run[1..]);
        DrawnStep(g, Meaningful(es), kept);
      }
    }
  }
}
