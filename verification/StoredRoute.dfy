/** The ledger rebuilt from the stored form of a conversation. */
module StoredRoute {
  import opened Common
  import opened Session
  import opened EventFolder
  import opened StoredEntries
  import opened Transcript
  import opened Conversations

  // ---------------------------------------------------------------- the parts of one reply

  function PendingCard(c: Call): Entry { Tool(c.id, c.name, c.args, Pending, None, None) }

  function BlockAction(messageId: string, b: Block, recover: bool): Action {
    match b
    case TextBlock(deltas) => TextAppended(messageId, Joined(deltas))
    case ThinkingBlock(deltas) =>
      if recover then TextAppended(messageId, Joined(deltas)) else ThinkingAppended(messageId, Joined(deltas))
    case CallBlock(c) => ToolChanged(c.id, c.name, c.args, Pending, None)
  }

  /** The message after one block, and after all of them. */
  function Shown(m: Entry, b: Block, recover: bool): Entry
    requires m.Message?
  {
    match b
    case TextBlock(deltas) => m.(text := m.text + Joined(deltas))
    case ThinkingBlock(deltas) =>
      if recover then m.(text := m.text + Joined(deltas)) else m.(thinking := m.thinking + Joined(deltas))
    case CallBlock(_) => m
  }

  function ShownAll(m: Entry, blocks: seq<Block>, recover: bool): Entry
    requires m.Message?
    decreases |blocks|
  {
    if blocks == [] then m else ShownAll(Shown(m, blocks[0], recover), blocks[1..], recover)
  }

  function WithCards(cards: seq<Entry>, blocks: seq<Block>): seq<Entry>
    decreases |blocks|
  {
    if blocks == [] then cards
    else WithCards(if blocks[0].CallBlock? then cards + [PendingCard(blocks[0].call)] else cards, blocks[1..])
  }

  lemma BlockStep(pre: seq<Entry>, m: Entry, cards: seq<Entry>, b: Block, recover: bool)
    requires m.Message? && Cards(cards)
    requires b.CallBlock? ==> NoCard(pre, b.call.id) && NoCard(cards, b.call.id)
    ensures ApplyEntries(pre + [m] + cards, BlockAction(m.messageId, b, recover))
            == pre + [Shown(m, b, recover)] + (if b.CallBlock? then cards + [PendingCard(b.call)] else cards)
  {
    match b
    case TextBlock(deltas) => AppendText(pre, m, cards, Joined(deltas));
    case ThinkingBlock(deltas) =>
      if recover { AppendText(pre, m, cards, Joined(deltas)); } else { AppendThinking(pre, m, cards, Joined(deltas)); }
    case CallBlock(c) => AddCard(pre + [m], cards, BlockAction(m.messageId, b, recover));
  }

  lemma FirstPartAction(messageId: string, blocks: seq<Block>, recover: bool)
    requires blocks != []
    ensures PartActions(messageId, PartsOf(blocks), recover)
            == [BlockAction(messageId, blocks[0], recover)] + PartActions(messageId, PartsOf(blocks[1..]), recover)
  {
    assert PartsOf(blocks)[1..] == PartsOf(blocks[1..]);
  }

  /** The parts of a stored message, applied to the ledger it was just added to. */
  lemma {:induction false} StoredParts(pre: seq<Entry>, m: Entry, cards: seq<Entry>, blocks: seq<Block>, recover: bool)
    requires m.Message? && Cards(cards) && DistinctCalls(CallsOf(blocks))
    requires Fresh(pre, CallsOf(blocks)) && Fresh(cards, CallsOf(blocks))
    ensures ApplyEach(pre + [m] + cards, PartActions(m.messageId, PartsOf(blocks), recover))
            == pre + [ShownAll(m, blocks, recover)] + WithCards(cards, blocks)
    decreases |blocks|
  {
    if blocks == [] {
    } else {
      var b := blocks[0];
      LaterCalls(blocks);
      BlockStep(pre, m, cards, b, recover);
      FirstPartAction(m.messageId, blocks, recover);
      var cards' := if b.CallBlock? then cards + [PendingCard(b.call)] else cards;
      StoredParts(pre, Shown(m, b, recover), cards', blocks[1..], recover);
    }
  }

  /** The text a stored message shows; recovered thinking counts as text. */
  function StoredText(blocks: seq<Block>, recover: bool): string {
    if blocks == [] then ""
    else (match blocks[0]
          case TextBlock(deltas) => Joined(deltas)
          case ThinkingBlock(deltas) => if recover then Joined(deltas) else ""
          case CallBlock(_) => "") + StoredText(blocks[1..], recover)
  }

  lemma {:induction false} ShownAllIs(m: Entry, blocks: seq<Block>, recover: bool)
    requires m.Message?
    ensures ShownAll(m, blocks, recover)
            == m.(text := m.text + StoredText(blocks, recover),
                  thinking := m.thinking + if recover then "" else ThinkingIn(blocks))
    decreases |blocks|
  {
    if blocks == [] {
      assert m.text + "" == m.text && m.thinking + "" == m.thinking;
    } else {
      ShownAllIs(Shown(m, blocks[0], recover), blocks[1..], recover);
      var text, thinking := StoredText(blocks[1..], recover), if recover then "" else ThinkingIn(blocks[1..]);
      assert forall s: string :: "" + s == s;
      if !blocks[0].CallBlock? {
        Joining(m.text, Joined(blocks[0].deltas), text);
        Joining(m.thinking, Joined(blocks[0].deltas), thinking);
      }
    }
  }

  lemma {:induction false} WithCardsAre(cards: seq<Entry>, blocks: seq<Block>)
    ensures |WithCards(cards, blocks)| == |cards| + |CallsOf(blocks)|
    ensures forall k :: 0 <= k < |cards| ==> WithCards(cards, blocks)[k] == cards[k]
    ensures forall k :: 0 <= k < |CallsOf(blocks)| ==>
              WithCards(cards, blocks)[|cards| + k] == PendingCard(CallsOf(blocks)[k])
    decreases |blocks|
  {
    if blocks != [] {
      var b := blocks[0];
      var cards' := if b.CallBlock? then cards + [PendingCard(b.call)] else cards;
      WithCardsAre(cards', blocks[1..]);
      if b.CallBlock? {
        forall k | 0 <= k < |CallsOf(blocks)|
          ensures WithCards(cards, blocks)[|cards| + k] == PendingCard(CallsOf(blocks)[k])
        {
          if k == 0 { assert cards'[|cards|] == PendingCard(b.call); }
          else {
            assert WithCards(cards', blocks[1..])[|cards'| + (k - 1)] == PendingCard(CallsOf(blocks[1..])[k - 1]);
          }
        }
      }
    }
  }

  predicate Speaks(p: Part) { p.TextPart? && p.text != "" }

  lemma HasTextStep(parts: seq<Part>)
    requires parts != []
    ensures HasText(parts) <==> Speaks(parts[0]) || HasText(parts[1..])
  {
    if HasText(parts[1..]) {
      var k :| 0 <= k < |parts[1..]| && parts[1..][k].TextPart? && parts[1..][k].text != "";
      assert parts[k + 1] == parts[1..][k];
    }
    if HasText(parts) && !Speaks(parts[0]) {
      var k :| 0 <= k < |parts| && parts[k].TextPart? && parts[k].text != "";
      assert parts[1..][k - 1] == parts[k];
    }
  }

  lemma {:induction false} StoredTextIs(blocks: seq<Block>)
    ensures StoredText(blocks, false) == TextIn(blocks)
    ensures TextIn(blocks) == "" ==> StoredText(blocks, true) == ThinkingIn(blocks)
    ensures HasText(PartsOf(blocks)) <==> TextIn(blocks) != ""
  {
    if blocks != [] {
      StoredTextIs(blocks[1..]);
      assert PartsOf(blocks)[0] == PartOfBlock(blocks[0]) && PartsOf(blocks)[1..] == PartsOf(blocks[1..]);
      HasTextStep(PartsOf(blocks));
    }
  }

  // ---------------------------------------------------------------- the results

  function ResultAction(c: Call): Action {
    ToolChanged(c.id, c.name, None, if c.isError then Errored else Finished, Some(ExtractText(c.outcome)))
  }

  lemma ResultStep(pre: seq<Entry>, cards: seq<Entry>, calls: seq<Call>, ended: set<nat>, i: nat)
    returns (cards': seq<Entry>)
    requires CardsFor(cards, calls, |calls|, ended) && DistinctCalls(calls) && i < |calls|
    ensures CardsFor(cards', calls, |calls|, ended + {i})
    ensures forall j :: 0 <= j < |calls| && j != i ==> cards'[j] == cards[j]
    ensures ApplyEntries(pre + cards, ResultAction(calls[i])) == pre + cards'
  {
    var a := ResultAction(calls[i]);
    OneCardForEachCall(cards, calls, |calls|, ended, i);
    ChangeCard(pre, cards, i, a);
    cards' := cards[i := ChangedCard(cards[i], a)];
  }

  lemma FirstResult(t: Totals, calls: seq<Call>, order: seq<nat>)
    requires InRange(order, |calls|) && order != []
    ensures FoldAll(t, StoredResults(calls, order)).1
            == [ResultAction(calls[order[0]])] + FoldAll(t, StoredResults(calls, order[1..])).1
  {
    assert StoredResults(calls, order)[1..] == StoredResults(calls, order[1..]);
    assert FoldEntry(t, StoredResult(calls[order[0]])) == (t, [ResultAction(calls[order[0]])]);
  }

  /** The stored results settle the cards they are for, in whatever order they were written. */
  lemma {:induction false} StoredResultsSettle(t: Totals, pre: seq<Entry>, cards: seq<Entry>, calls: seq<Call>,
                                               ended: set<nat>, order: seq<nat>) returns (cards': seq<Entry>)
    requires CardsFor(cards, calls, |calls|, ended) && DistinctCalls(calls) && InRange(order, |calls|)
    ensures ApplyEach(pre + cards, FoldAll(t, StoredResults(calls, order)).1) == pre + cards'
    ensures CardsFor(cards', calls, |calls|, ended + set i | i in order)
    ensures forall j :: 0 <= j < |calls| && j !in order ==> cards'[j] == cards[j]
    decreases |order|
  {
    if order == [] {
      assert ended + (set i | i in order) == ended;
      cards' := cards;
    } else {
      var next := ResultStep(pre, cards, calls, ended, order[0]);
      cards' := StoredResultsSettle(t, pre, next, calls, ended + {order[0]}, order[1..]);
      assert (set i | i in order) == {order[0]} + set i | i in order[1..];
      assert ended + {order[0]} + (set i | i in order[1..]) == ended + set i | i in order;
      FirstResult(t, calls, order);
    }
  }

  // ---------------------------------------------------------------- whole turns

  lemma {:induction false} FoldAllConcat(t: Totals, a: seq<Stored>, b: seq<Stored>)
    ensures FoldAll(t, a + b).1 == FoldAll(t, a).1 + FoldAll(FoldAll(t, a).0, b).1
    ensures FoldAll(t, a + b).0 == FoldAll(FoldAll(t, a).0, b).0
    decreases |a|
  {
    if a == [] {
      assert a + b == b;
    } else {
      assert (a + b)[1..] == a[1..] + b;
      FoldAllConcat(FoldEntry(t, a[0]).0, a[1..], b);
    }
  }

  lemma {:induction false} UserParts(es: seq<Entry>, m: Entry, parts: seq<Part>)
    requires m.Message? && forall p :: p in parts ==> p.TextPart? || p.OtherPart?
    ensures ApplyEach(es + [m], PartActions(m.messageId, parts, false))
            == es + [m.(text := m.text + ExtractText(parts))]
    decreases |parts|
  {
    if parts == [] {
      assert m.text + "" == m.text;
    } else {
      var actions, rest := PartActions(m.messageId, parts, false), PartActions(m.messageId, parts[1..], false);
      if parts[0].OtherPart? {
        assert actions == rest && ExtractText(parts) == ExtractText(parts[1..]);
        UserParts(es, m, parts[1..]);
      } else {
        assert actions[1..] == rest && actions[0] == TextAppended(m.messageId, parts[0].text);
        AppendText(es, m, [], parts[0].text);
        var m' := m.(text := m.text + parts[0].text);
        assert es + [m] + [] == es + [m] && es + [m'] + [] == es + [m'];
        UserParts(es, m', parts[1..]);
        assert m'.text + ExtractText(parts[1..]) == m.text + (parts[0].text + ExtractText(parts[1..]));
      }
    }
  }

  function BodyOf(turn: Turn): Body
    requires turn.AssistantTurn?
  {
    ChatBody(Assistant, PartsOf(turn.blocks), turn.stopped, turn.usage)
  }

  /** The message of a reply when it is added, and when its parts are drawn. */
  function Unwritten(turn: Turn): Entry
    requires turn.AssistantTurn?
  {
    Message(turn.id, true, Assistant, "", "")
  }

  function Written(turn: Turn): Entry
    requires turn.AssistantTurn?
  {
    ShownAll(Unwritten(turn), turn.blocks, RecoversThinking(BodyOf(turn)))
  }

  function ReplyParts(turn: Turn): seq<Action>
    requires turn.AssistantTurn?
  {
    PartActions(turn.id, PartsOf(turn.blocks), RecoversThinking(BodyOf(turn)))
  }

  function ReplyResults(t: Totals, turn: Turn): seq<Action>
    requires turn.AssistantTurn? && Storable(turn)
  {
    FoldAll(AddUsage(t, turn.usage), StoredResults(CallsOf(turn.blocks), turn.resultOrder)).1
  }

  function ReplyUsage(t: Totals, turn: Turn): seq<Action>
    requires turn.AssistantTurn?
  {
    var t' := AddUsage(t, turn.usage);
    if turn.usage.Some? then [UsageChanged(t'.tokens, t'.cost)] else []
  }

  /** The actions of a stored reply: the message, its parts, perhaps its usage, its results. */
  lemma StoredReplyActions(t: Totals, turn: Turn)
    requires turn.AssistantTurn? && Storable(turn)
    ensures FoldAll(t, StoredTurn(turn)).1
            == [MessageAdded(turn.id, Assistant, true)]
               + (ReplyParts(turn) + (ReplyUsage(t, turn) + ReplyResults(t, turn)))
  {
    var reply := StoredMessage(Some(turn.id), Some(BodyOf(turn)));
    var stored := StoredResults(CallsOf(turn.blocks), turn.resultOrder);
    assert StoredTurn(turn)[0] == reply && StoredTurn(turn)[1..] == stored;
    var start := [MessageAdded(turn.id, Assistant, true)];
    assert FoldEntry(t, reply).1 == start + ReplyParts(turn) + ReplyUsage(t, turn);
    assert FoldEntry(t, reply).1 + ReplyResults(t, turn)
           == start + (ReplyParts(turn) + (ReplyUsage(t, turn) + ReplyResults(t, turn)));
  }

  lemma UsageDrawsNothing(t: Totals, es: seq<Entry>, turn: Turn)
    requires turn.AssistantTurn?
    ensures ApplyEach(es, ReplyUsage(t, turn)) == es
  {
  }

  lemma StoredReplyApplied(t: Totals, es: seq<Entry>, turn: Turn)
    requires turn.AssistantTurn? && Storable(turn)
    ensures ApplyEach(es, FoldAll(t, StoredTurn(turn)).1)
            == ApplyEach(ApplyEach(es + [Unwritten(turn)], ReplyParts(turn)), ReplyResults(t, turn))
  {
    StoredReplyActions(t, turn);
    var start := MessageAdded(turn.id, Assistant, true);
    var m := Unwritten(turn);
    var later := ReplyParts(turn) + (ReplyUsage(t, turn) + ReplyResults(t, turn));
    assert ([start] + later)[1..] == later && ApplyEntries(es, start) == es + [m];
    ApplyEachConcat(es + [m], ReplyParts(turn), ReplyUsage(t, turn) + ReplyResults(t, turn));
    var drawn := ApplyEach(es + [m], ReplyParts(turn));
    ApplyEachConcat(drawn, ReplyUsage(t, turn), ReplyResults(t, turn));
    UsageDrawsNothing(t, drawn, turn);
  }

  lemma ReplySays(turn: Turn, cards: seq<Entry>)
    requires turn.AssistantTurn? && AllFinal(cards, CallsOf(turn.blocks))
    ensures SaidAll([Written(turn)] + cards) == SaidTurn(turn, true)
    ensures CardsWithin([Written(turn)] + cards, Ids(CallsOf(turn.blocks)))
  {
    ShownAllIs(Unwritten(turn), turn.blocks, RecoversThinking(BodyOf(turn)));
    StoredTextIs(turn.blocks);
    FinalCardsSay(cards, CallsOf(turn.blocks));
    assert forall s: string :: "" + s == s;
    assert ([Written(turn)] + cards)[1..] == cards;
  }

  lemma ReplyDrawn(es: seq<Entry>, turn: Turn)
    requires turn.AssistantTurn? && Storable(turn) && Fresh(es, CallsOf(turn.blocks))
    ensures ApplyEach(es + [Unwritten(turn)], ReplyParts(turn)) == es + [Written(turn)] + WithCards([], turn.blocks)
  {
    assert es + [Unwritten(turn)] + [] == es + [Unwritten(turn)];
    StoredParts(es, Unwritten(turn), [], turn.blocks, RecoversThinking(BodyOf(turn)));
  }

  lemma ReplySettles(t: Totals, pre: seq<Entry>, pending: seq<Entry>, turn: Turn) returns (cards: seq<Entry>)
    requires turn.AssistantTurn? && Storable(turn) && pending == WithCards([], turn.blocks)
    ensures ApplyEach(pre + pending, ReplyResults(t, turn)) == pre + cards
    ensures CardsFor(cards, CallsOf(turn.blocks), |CallsOf(turn.blocks)|, set i | i in turn.resultOrder)
    ensures forall i :: 0 <= i < |cards| && i !in turn.resultOrder ==> cards[i] == PendingCard(CallsOf(turn.blocks)[i])
  {
    var calls := CallsOf(turn.blocks);
    WithCardsAre([], turn.blocks);
    assert CardsFor(pending, calls, |calls|, {}) by {
      assert forall i :: 0 <= i < |calls| ==> pending[0 + i] == PendingCard(calls[i]);
    }
    cards := StoredResultsSettle(AddUsage(t, turn.usage), pre, pending, calls, {}, turn.resultOrder);
    assert {} + (set i | i in turn.resultOrder) == set i | i in turn.resultOrder;
  }

  /** A stored reply with the results there are, applied to a ledger that knows none of its calls. */
  lemma StoredReplyDrawn(t: Totals, es: seq<Entry>, turn: Turn) returns (cards: seq<Entry>)
    requires turn.AssistantTurn? && Storable(turn) && Fresh(es, CallsOf(turn.blocks))
    ensures ApplyEach(es, FoldAll(t, StoredTurn(turn)).1) == es + ([Written(turn)] + cards)
    ensures CardsFor(cards, CallsOf(turn.blocks), |CallsOf(turn.blocks)|, set i | i in turn.resultOrder)
    ensures forall i :: 0 <= i < |cards| && i !in turn.resultOrder ==> cards[i] == PendingCard(CallsOf(turn.blocks)[i])
  {
    cards := ReplySettles(t, es + [Written(turn)], WithCards([], turn.blocks), turn);
    calc {
      ApplyEach(es, FoldAll(t, StoredTurn(turn)).1);
      { StoredReplyApplied(t, es, turn); }
      ApplyEach(ApplyEach(es + [Unwritten(turn)], ReplyParts(turn)), ReplyResults(t, turn));
      { ReplyDrawn(es, turn); }
      ApplyEach(es + [Written(turn)] + WithCards([], turn.blocks), ReplyResults(t, turn));
      es + [Written(turn)] + cards;
      es + ([Written(turn)] + cards);
    }
  }

  /** A stored reply with all its results. */
  lemma StoredReply(t: Totals, es: seq<Entry>, turn: Turn) returns (added: seq<Entry>)
    requires turn.AssistantTurn? && GoodTurn(turn) && Fresh(es, CallsOf(turn.blocks))
    ensures ApplyEach(es, FoldAll(t, StoredTurn(turn)).1) == es + added
    ensures SaidAll(added) == SaidTurn(turn, true) && CardsWithin(added, Ids(CallsOf(turn.blocks)))
  {
    var cards := StoredReplyDrawn(t, es, turn);
    ReplySays(turn, cards);
    added := [Written(turn)] + cards;
  }

  lemma StoredTurnSays(t: Totals, es: seq<Entry>, turn: Turn) returns (added: seq<Entry>)
    requires GoodTurn(turn) && Fresh(es, TurnCalls(turn))
    ensures ApplyEach(es, FoldAll(t, StoredTurn(turn)).1) == es + added
    ensures SaidAll(added) == SaidTurn(turn, true) && CardsWithin(added, Ids(TurnCalls(turn)))
  {
    match turn
    case ModelTurn(provider, modelId) =>
      added := [Model(provider, modelId)];
      var actions := FoldAll(t, StoredTurn(turn)).1;
      assert StoredTurn(turn)[1..] == [];
      assert actions == [ModelInUse(provider, modelId)] && actions[1..] == [];
      assert added[1..] == [];
    case UserTurn(id, parts) =>
      var m := Message(id, true, User, "", "");
      var start := MessageAdded(id, User, true);
      var drawn := PartActions(id, parts, false);
      assert StoredTurn(turn)[1..] == [];
      assert FoldAll(t, StoredTurn(turn)).1 == [start] + drawn;
      assert ([start] + drawn)[1..] == drawn;
      UserParts(es, m, parts);
      added := [m.(text := ExtractText(parts))];
      assert "" + ExtractText(parts) == ExtractText(parts);
      assert added[1..] == [];
    case AssistantTurn(_, _, _, _, _, _) => added := StoredReply(t, es, turn);
  }

  /** The ledger rebuilt from the stored conversation. */
  lemma {:induction false} StoredConversationSays(turns: seq<Turn>) returns (es: seq<Entry>)
    requires GoodConversation(turns)
    ensures es == ApplyEach([], FoldAll(Totals(0.0, 0.0), StoredConversation(turns)).1)
    ensures SaidAll(es) == SaidConversation(turns, true) && CardsWithin(es, CallIds(turns))
    decreases |turns|
  {
    if turns == [] {
      es := [];
    } else {
      var before, turn := turns[..|turns|-1], turns[|turns|-1];
      var es0 := StoredConversationSays(before);
      var t := FoldAll(Totals(0.0, 0.0), StoredConversation(before)).0;
      FreshFromWithin(es0, CallIds(before), TurnCalls(turn));
      var added := StoredTurnSays(t, es0, turn);
      FoldAllConcat(Totals(0.0, 0.0), StoredConversation(before), StoredTurn(turn));
      ApplyEachConcat([], FoldAll(Totals(0.0, 0.0), StoredConversation(before)).1, FoldAll(t, StoredTurn(turn)).1);
      es := es0 + added;
      SaidAllConcat(es0, added);
    }
  }
}
