/** The two routes agree: the theorem behind rebuilding a transcript from Pi's session file. */
module Reconciliation {
  import opened Common
  import opened Session
  import opened EventFolder
  import opened StoredEntries
  import opened Transcript
  import opened Conversations
  import opened StoredRoute
  import opened LiveRoute

  /** What the ledger shows after the actions. */
  function Ledger(actions: seq<Action>): seq<Entry> { ApplyAll(EMPTY, actions).entries }

  function LiveLedger(run: seq<Live>): seq<Entry> { Ledger(FoldLive(FOLDER_INIT, run).1) }

  function StoredLedger(turns: seq<Turn>): seq<Entry>
    requires GoodConversation(turns)
  {
    Ledger(FoldAll(Totals(0.0, 0.0), StoredConversation(turns)).1)
  }

  /** The run of a live conversation, with any notices, usage and status reports in between. */
  predicate IsRunOf(run: seq<Live>, turns: seq<Turn>) { WithoutAsides(run) == LiveConversation(turns) }

  lemma EntriesOnly(s: Snapshot, a: Action)
    ensures Apply(s, a).entries == ApplyEntries(s.entries, a)
  {
  }

  lemma {:induction false} LedgerIs(actions: seq<Action>)
    ensures Ledger(actions) == ApplyEach([], actions)
    decreases |actions|
  {
    if actions != [] {
      var before, a := actions[..|actions|-1], actions[|actions|-1];
      LedgerIs(before);
      EntriesOnly(ApplyAll(EMPTY, before), a);
      assert before + [a] == actions;
      ApplyEachConcat([], before, [a]);
      OneAction(ApplyEach([], before), a);
    }
  }

  lemma {:induction false} SaidOfMeaningfulIs(es: seq<Entry>)
    ensures SaidAll(Meaningful(es)) == SaidAll(es)
  {
    if es != [] {
      SaidOfMeaningfulIs(es[1..]);
      if es[0].Notice? {
        assert Meaningful(es) == Meaningful(es[1..]) && SaidAll(es) == SaidAll(es[1..]);
      } else {
        assert Meaningful(es)[1..] == Meaningful(es[1..]);
      }
    }
  }

  lemma LiveLedgerSays(turns: seq<Turn>, run: seq<Live>)
    requires GoodConversation(turns) && IsRunOf(run, turns)
    ensures SaidAll(LiveLedger(run)) == SaidConversation(turns, false)
  {
    LedgerIs(FoldLive(FOLDER_INIT, run).1);
    AsidesDoNotMatter(FOLDER_INIT, FOLDER_INIT, [], run);
    var es := LiveConversationSays(FOLDER_INIT, turns);
    SaidOfMeaningfulIs(LiveLedger(run));
  }

  lemma StoredLedgerSays(turns: seq<Turn>)
    requires GoodConversation(turns)
    ensures SaidAll(StoredLedger(turns)) == SaidConversation(turns, true)
  {
    LedgerIs(FoldAll(Totals(0.0, 0.0), StoredConversation(turns)).1);
    var es := StoredConversationSays(turns);
  }

  lemma {:induction false} SameLength(turns: seq<Turn>)
    ensures |SaidConversation(turns, true)| == |SaidConversation(turns, false)|
    decreases |turns|
  {
    if turns != [] { SameLength(turns[..|turns|-1]); }
  }

  /** The recovered and the plain reading differ exactly when there is something to recover. */
  lemma {:induction false} RecoveryShows(turns: seq<Turn>)
    ensures SaidConversation(turns, true) == SaidConversation(turns, false) <==>
              forall t :: t in turns ==> !ThinkingOnly(t)
    decreases |turns|
  {
    if turns != [] {
      var before, t := turns[..|turns|-1], turns[|turns|-1];
      RecoveryShows(before);
      SameLength(before);
      assert turns == before + [t];
      var n := |SaidConversation(before, true)|;
      var a, b := SaidConversation(turns, true), SaidConversation(turns, false);
      assert a[..n] == SaidConversation(before, true) && b[..n] == SaidConversation(before, false);
      assert a[n..] == SaidTurn(t, true) && b[n..] == SaidTurn(t, false);
      assert a == b <==> a[..n] == b[..n] && a[n..] == b[n..] by {
        assert a == a[..n] + a[n..] && b == b[..n] + b[n..];
      }
      assert SaidTurn(t, true) == SaidTurn(t, false) <==> !ThinkingOnly(t) by {
        if ThinkingOnly(t) { assert SaidTurn(t, true)[0] != SaidTurn(t, false)[0]; }
      }
    }
  }

  /**
   For every conversation, however its replies were streamed, its tools interleaved and notices mixed
   in: the live ledger and the one rebuilt from storage say the same thing, exactly when no normally
   finished reply consists of thinking only.
   */
  lemma LiveAndStoredAgree(turns: seq<Turn>, run: seq<Live>)
    requires GoodConversation(turns) && IsRunOf(run, turns)
    ensures SameTranscript(LiveLedger(run), StoredLedger(turns)) <==> forall t :: t in turns ==> !ThinkingOnly(t)
  {
    LiveLedgerSays(turns, run);
    StoredLedgerSays(turns);
    RecoveryShows(turns);
    SameTranscriptSaysTheSame(LiveLedger(run), StoredLedger(turns));
  }

  // ---------------------------------------------------------------- the objects

  lemma {:induction false} ApplyAllConcat(s: Snapshot, a: seq<Action>, b: seq<Action>)
    ensures ApplyAll(s, a + b) == ApplyAll(ApplyAll(s, a), b)
    decreases |b|
  {
    if b == [] {
      assert a + b == a;
    } else {
      assert (a + b)[..|a + b|-1] == a + b[..|b|-1];
      ApplyAllConcat(s, a, b[..|b|-1]);
    }
  }

  method PerformAll(ledger: Session.Ledger, actions: seq<Action>)
    requires ledger.Valid()
    modifies ledger, ledger.cards
    ensures ledger.Valid() && ledger.Contents() == ApplyAll(old(ledger.Contents()), actions)
    ensures forall c :: c in ledger.cards ==> c in old(ledger.cards) || fresh(c)
  {
    for i := 0 to |actions|
      invariant ledger.Valid() && ledger.Contents() == ApplyAll(old(ledger.Contents()), actions[..i])
      invariant forall c :: c in ledger.cards ==> c in old(ledger.cards) || fresh(c)
    {
      assert actions[..i+1][..i] == actions[..i];
      assert forall k :: 0 <= k < |ledger.cards| ==> ledger.cards[k] in ledger.cards;
      ledger.Perform(actions[i]);
    }
    assert actions[..|actions|] == actions;
  }

  /** What the server passes on: folded events, and its own markers and questions. */
  method Translate(folder: Folder, l: Live) returns (actions: seq<Action>)
    modifies folder
    ensures (folder.State(), actions) == LiveActions(old(folder.State()), l)
  {
    match l
    case Pi(event) => actions := folder.Fold(event);
    case Ask(confirm) => actions := [ConfirmRequested(confirm)];
    case InUse(provider, modelId) => actions := [ModelInUse(provider, modelId)];
    case Say(text) => actions := [NoticeAdded(text)];
  }

  lemma FoldLiveOne(f: FolderState, l: Live)
    ensures FoldLive(f, [l]) == LiveActions(f, l)
  {
    assert [l][1..] == [];
    assert LiveActions(f, l).1 + [] == LiveActions(f, l).1;
  }

  lemma FoldLiveNext(run: seq<Live>, i: nat)
    requires i < |run|
    ensures var (f, actions) := FoldLive(FOLDER_INIT, run[..i]);
            FoldLive(FOLDER_INIT, run[..i+1]) == (LiveActions(f, run[i]).0, actions + LiveActions(f, run[i]).1)
  {
    var f := FoldLive(FOLDER_INIT, run[..i]).0;
    assert run[..i+1] == run[..i] + [run[i]];
    FoldLiveConcat(FOLDER_INIT, run[..i], [run[i]]);
    FoldLiveOne(f, run[i]);
  }

  /** The total the ledger shows is what the folder has added up. */
  function FoldedTokens(run: seq<Live>): real { FoldLive(FOLDER_INIT, run).0.tokens }

  lemma StepTotals(s: Snapshot, f: FolderState, l: Live)
    requires s.totalTokens == f.tokens
    ensures ApplyAll(s, LiveActions(f, l).1).totalTokens == LiveActions(f, l).0.tokens
  {
    var actions := LiveActions(f, l).1;
    assert ApplyAll(s, []) == s;
    if |actions| == 1 { assert actions[..0] == []; }
    if |actions| == 2 { assert actions[..1][..0] == [] && actions[..1] == [actions[0]]; }
  }

  lemma {:induction false} LiveTotals(run: seq<Live>)
    ensures ApplyAll(EMPTY, FoldLive(FOLDER_INIT, run).1).totalTokens == FoldedTokens(run) == TokensIn(run)
    decreases |run|
  {
    TokensAddUp(FOLDER_INIT, run);
    if run != [] {
      var i := |run| - 1;
      LiveTotals(run[..i]);
      assert run[..i+1] == run;
      FoldLiveNext(run, i);
      var (f, before) := FoldLive(FOLDER_INIT, run[..i]);
      ApplyAllConcat(EMPTY, before, LiveActions(f, run[i]).1);
      StepTotals(ApplyAll(EMPTY, before), f, run[i]);
    }
  }

  /** The server's side: events go through the folder object, everything goes into the ledger object. */
  method FeedLive(run: seq<Live>) returns (ledger: Session.Ledger)
    ensures ledger.Valid() && ledger.Entries() == LiveLedger(run)
    ensures ledger.totalTokens == FoldedTokens(run)
    ensures fresh(ledger) && forall c :: c in ledger.cards ==> fresh(c)
  {
    var folder := new Folder();
    ledger := new Session.Ledger(EMPTY);
    for i := 0 to |run|
      invariant fresh(folder) && fresh(ledger) && ledger.Valid() && forall c :: c in ledger.cards ==> fresh(c)
      invariant folder.State() == FoldLive(FOLDER_INIT, run[..i]).0
      invariant ledger.Contents() == ApplyAll(EMPTY, FoldLive(FOLDER_INIT, run[..i]).1)
    {
      ghost var before := FoldLive(FOLDER_INIT, run[..i]);
      var actions := Translate(folder, run[i]);
      assert forall k :: 0 <= k < |ledger.cards| ==> ledger.cards[k] in ledger.cards;
      PerformAll(ledger, actions);
      FoldLiveNext(run, i);
      ApplyAllConcat(EMPTY, before.1, actions);
    }
    assert run[..|run|] == run;
    LiveTotals(run);
  }

  /** The rebuilt side: the stored entries are folded and replayed into a new ledger object. */
  method FeedStored(entries: seq<Stored>) returns (ledger: Session.Ledger)
    ensures ledger.Valid() && ledger.Entries() == Ledger(FoldAll(Totals(0.0, 0.0), entries).1)
    ensures fresh(ledger) && forall c :: c in ledger.cards ==> fresh(c)
  {
    var actions := FoldSessionEntries(entries);
    ledger := new Session.Ledger(EMPTY);
    PerformAll(ledger, actions);
  }

  /**
   Both routes, run on the objects: the comparison of the two ledgers says whether some reply of the
   conversation consists of thinking only, and nothing else.
   */
  method Reconcile(turns: seq<Turn>, run: seq<Live>) returns (live: Session.Ledger, stored: Session.Ledger, same: bool)
    requires GoodConversation(turns) && IsRunOf(run, turns)
    ensures live.Entries() == LiveLedger(run) && stored.Entries() == StoredLedger(turns)
    ensures same == SameTranscript(live.Entries(), stored.Entries())
    ensures same <==> forall t :: t in turns ==> !ThinkingOnly(t)
  {
    live := FeedLive(run);
    stored := FeedStored(StoredConversation(turns));
    same := SameTranscript(live.Entries(), stored.Entries());
    LiveAndStoredAgree(turns, run);
  }
}
