/**
 A reply cut off while its tools are running. The stored side shows a card for every call, pending if
 no result was stored; the live side has cards for the calls that have started. This module says
 exactly when the two still agree.
 */
module CutOffReply {
  import opened Common
  import opened Session
  import opened EventFolder
  import opened StoredEntries
  import opened Transcript
  import opened Conversations
  import opened StoredRoute
  import opened LiveRoute
  import opened Reconciliation

  /** The last reply of a conversation, cut off anywhere in the run of its tools, with any results stored. */
  predicate CutOff(turns: seq<Turn>, turn: Turn) {
    && GoodConversation(turns) && Storable(turn) && MayRun(turn)
    && forall c :: c in CallsOf(turn.blocks) ==> c.id !in CallIds(turns)
  }

  /** A run of the conversation and the reply, with any notices, usage and status reports in between. */
  predicate IsCutRunOf(run: seq<Live>, turns: seq<Turn>, turn: Turn) {
    WithoutAsides(run) == LiveConversation(turns) + LiveTurn(turn)
  }

  function StoredCutLedger(turns: seq<Turn>, turn: Turn): seq<Entry>
    requires CutOff(turns, turn)
  {
    Reconciliation.Ledger(FoldAll(Totals(0.0, 0.0), StoredConversation(turns) + StoredTurn(turn)).1)
  }

  /** What the message of a reply says. */
  function SaidReply(turn: Turn, recovered: bool): Said
    requires turn.AssistantTurn?
  {
    SaidTurn(turn, recovered)[0]
  }

  lemma {:induction false} CardsSay(cards: seq<Entry>)
    requires Cards(cards)
    ensures |SaidAll(cards)| == |cards|
    ensures forall i :: 0 <= i < |cards| ==> SaidAll(cards)[i] == SaidBy(cards[i])
  {
    if cards != [] {
      assert forall k :: 0 <= k < |cards[1..]| ==> cards[1..][k] == cards[k + 1];
      CardsSay(cards[1..]);
    }
  }

  lemma SaysMessageAndCards(es: seq<Entry>, m: Entry, cards: seq<Entry>)
    requires m.Message?
    ensures SaidAll(es + ([m] + cards)) == SaidAll(es) + [SaidBy(m)] + SaidAll(cards)
  {
    SaidAllConcat(es, [m] + cards);
    assert ([m] + cards)[1..] == cards;
    assert SaidAll([m] + cards) == [SaidBy(m)] + SaidAll(cards);
  }

  lemma LiveCutSays(turns: seq<Turn>, turn: Turn, run: seq<Live>) returns (cards: seq<Entry>, ended: set<nat>)
    requires CutOff(turns, turn) && IsCutRunOf(run, turns, turn)
    ensures SaidAll(LiveLedger(run)) == SaidConversation(turns, false) + [SaidReply(turn, false)] + SaidAll(cards)
    ensures CardsFor(cards, CallsOf(turn.blocks), Starts(turn.schedule), ended) && Open(cards, ended)
    ensures forall i :: 0 <= i < |CallsOf(turn.blocks)| ==>
              (i in ended <==> Ends(turn.schedule, CallsOf(turn.blocks)[i].id))
  {
    LedgerIs(FoldLive(FOLDER_INIT, run).1);
    AsidesDoNotMatter(FOLDER_INIT, FOLDER_INIT, [], run);
    SaidOfMeaningfulIs(LiveLedger(run));
    var es := LiveConversationSays(FOLDER_INIT, turns);
    var f := FoldLive(FOLDER_INIT, LiveConversation(turns)).0;
    FreshFromWithin(es, CallIds(turns), CallsOf(turn.blocks));
    DrawnConcat(FOLDER_INIT, [], LiveConversation(turns), LiveTurn(turn));
    cards, ended := DrawnReply(f, es, turn);
    SaysMessageAndCards(es, Streamed(f, turn), cards);
  }

  lemma WrittenSays(turn: Turn)
    requires turn.AssistantTurn?
    ensures Written(turn).Message? && SaidBy(Written(turn)) == SaidReply(turn, true)
  {
    ShownAllIs(Unwritten(turn), turn.blocks, RecoversThinking(BodyOf(turn)));
    StoredTextIs(turn.blocks);
    assert forall s: string :: "" + s == s;
  }

  lemma StoredCutSays(turns: seq<Turn>, turn: Turn) returns (cards: seq<Entry>)
    requires CutOff(turns, turn)
    ensures SaidAll(StoredCutLedger(turns, turn))
            == SaidConversation(turns, true) + [SaidReply(turn, true)] + SaidAll(cards)
    ensures CardsFor(cards, CallsOf(turn.blocks), |CallsOf(turn.blocks)|, set i | i in turn.resultOrder)
    ensures forall i :: 0 <= i < |cards| && i !in turn.resultOrder ==> cards[i] == PendingCard(CallsOf(turn.blocks)[i])
  {
    var zero := Totals(0.0, 0.0);
    var stored := StoredConversation(turns);
    LedgerIs(FoldAll(zero, stored + StoredTurn(turn)).1);
    var es := StoredConversationSays(turns);
    var t := FoldAll(zero, stored).0;
    FreshFromWithin(es, CallIds(turns), CallsOf(turn.blocks));
    FoldAllConcat(zero, stored, StoredTurn(turn));
    ApplyEachConcat([], FoldAll(zero, stored).1, FoldAll(t, StoredTurn(turn)).1);
    cards := StoredReplyDrawn(t, es, turn);
    WrittenSays(turn);
    SaysMessageAndCards(es, Written(turn), cards);
  }

  /** The card of a call waits for an answer of the user and has shown no output. */
  predicate Waits(card: Entry) { card.Tool? && card.status.Pending? && ResultText(card.result) == "" }

  /** The two cards of a call say the same. */
  lemma CardsAgree(live: seq<Entry>, stored: seq<Entry>, calls: seq<Call>, ended: set<nat>, results: set<nat>, i: nat)
    requires CardsFor(live, calls, |calls|, ended) && Open(live, ended) && i < |calls|
    requires CardsFor(stored, calls, |calls|, results) && (i !in results ==> stored[i] == PendingCard(calls[i]))
    ensures SaidBy(live[i]) == SaidBy(stored[i]) <==> if i in results then i in ended else Waits(live[i])
  {
  }

  /** What must hold of a call for its two cards to agree: its result is stored and shown, or it waits. */
  predicate CallAgrees(turn: Turn, cards: seq<Entry>, i: nat)
    requires turn.AssistantTurn? && i < |cards| && i < |CallsOf(turn.blocks)|
  {
    if i in turn.resultOrder then Ends(turn.schedule, CallsOf(turn.blocks)[i].id) else Waits(cards[i])
  }

  /** The calls' cards agree exactly when every call has started and each agrees by itself. */
  lemma AllCardsAgree(turn: Turn, live: seq<Entry>, stored: seq<Entry>, ended: set<nat>)
    requires turn.AssistantTurn? && DistinctCalls(CallsOf(turn.blocks))
    requires var calls := CallsOf(turn.blocks);
             && CardsFor(live, calls, |live|, ended) && Open(live, ended)
             && CardsFor(stored, calls, |calls|, set i | i in turn.resultOrder)
             && (forall i :: 0 <= i < |calls| && i !in turn.resultOrder ==> stored[i] == PendingCard(calls[i]))
             && (forall i :: 0 <= i < |calls| ==> (i in ended <==> Ends(turn.schedule, calls[i].id)))
    ensures SaidAll(live) == SaidAll(stored) <==>
              |live| == |CallsOf(turn.blocks)| && forall i :: 0 <= i < |live| ==> CallAgrees(turn, live, i)
  {
    var calls := CallsOf(turn.blocks);
    CardsSay(live);
    CardsSay(stored);
    if |live| == |calls| {
      forall i | 0 <= i < |calls| ensures SaidAll(live)[i] == SaidAll(stored)[i] <==> CallAgrees(turn, live, i) {
        CardsAgree(live, stored, calls, ended, (set k | k in turn.resultOrder), i);
      }
    }
  }

  lemma ThreeParts(a: seq<Said>, m: Said, b: seq<Said>, a': seq<Said>, m': Said, b': seq<Said>)
    requires |a| == |a'|
    ensures a + [m] + b == a' + [m'] + b' <==> a == a' && m == m' && b == b'
  {
    var n, all, all' := |a|, a + [m] + b, a' + [m'] + b';
    assert all[..n] == a && all[n] == m && all[n+1..] == b;
    assert all'[..n] == a' && all'[n] == m' && all'[n+1..] == b';
  }

  /**
   A conversation whose last reply was cut off while its tools were running. `cards` are the live cards
   of that reply. The two ledgers agree exactly when no normally finished reply is thinking only, every
   call has started, each call with a stored result has ended, and each other one waits for the user
   with nothing shown.
   */
  lemma CutOffAgrees(turns: seq<Turn>, turn: Turn, run: seq<Live>) returns (cards: seq<Entry>)
    requires CutOff(turns, turn) && IsCutRunOf(run, turns, turn)
    ensures SaidAll(LiveLedger(run)) == SaidConversation(turns, false) + [SaidReply(turn, false)] + SaidAll(cards)
    ensures |cards| == Starts(turn.schedule) <= |CallsOf(turn.blocks)|
    ensures SameTranscript(LiveLedger(run), StoredCutLedger(turns, turn)) <==>
              && (forall t :: t in turns + [turn] ==> !ThinkingOnly(t))
              && |cards| == |CallsOf(turn.blocks)| && forall i :: 0 <= i < |cards| ==> CallAgrees(turn, cards, i)
  {
    var ended;
    cards, ended := LiveCutSays(turns, turn, run);
    var stored := StoredCutSays(turns, turn);
    AllCardsAgree(turn, cards, stored, ended);
    RecoveryShows(turns);
    SameLength(turns);
    SameTranscriptSaysTheSame(LiveLedger(run), StoredCutLedger(turns, turn));
    ThreeParts(SaidConversation(turns, false), SaidReply(turn, false), SaidAll(cards),
               SaidConversation(turns, true), SaidReply(turn, true), SaidAll(stored));
    assert turn in turns + [turn];
    assert forall t :: t in turns + [turn] <==> t in turns || t == turn;
  }
}
