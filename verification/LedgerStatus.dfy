/**
 What the ledger shows besides the transcript: busy, compacting, retry, queue and thinking level as
 last reported, all notices in order, and the usage added up, on both routes.
 */
module LedgerStatus {
  import opened Common
  import opened Session
  import opened EventFolder
  import opened StoredEntries
  import opened Transcript
  import opened Conversations
  import opened LiveRoute
  import opened Reconciliation

  // ---------------------------------------------------------------- what a run last reported

  /** The last report of a run, or what there was before it. */
  function Latest<T>(run: seq<Live>, report: Live -> Option<T>, initial: T): T {
    if run == [] then initial
    else
      var last := report(run[|run|-1]);
      if last.Some? then last.value else Latest(run[..|run|-1], report, initial)
  }

  function BusyReport(l: Live): Option<bool> {
    match l case Pi(AgentStart) => Some(true) case Pi(AgentSettled) => Some(false) case _ => None
  }

  function CompactionReport(l: Live): Option<bool> {
    match l case Pi(CompactionStart) => Some(true) case Pi(CompactionEnd(_, _)) => Some(false) case _ => None
  }

  function RetryReport(l: Live): Option<Option<Retry>> {
    match l case Pi(RetryStart(r)) => Some(Some(r)) case Pi(RetryEnd(_)) => Some(None) case _ => None
  }

  function QueueReport(l: Live): Option<Queue> {
    match l case Pi(QueueUpdate(queue)) => queue case _ => None
  }

  function LevelReport(l: Live): Option<string> {
    match l case Pi(ThinkingLevel(level)) => level case _ => None
  }

  function UsageReport(l: Live): Option<Usage> {
    match l case Pi(MessageEnd(usage)) => usage case _ => None
  }

  /** What the user is told: the host's own notices, how a compaction ended, that retrying failed. */
  function NoticesOf(l: Live): seq<string> {
    match l
    case Say(text) => [text]
    case Pi(CompactionEnd(_, notice)) => [notice]
    case Pi(RetryEnd(Some(failure))) => [failure]
    case _ => []
  }

  function NoticesIn(run: seq<Live>): seq<string> {
    if run == [] then [] else NoticesIn(run[..|run|-1]) + NoticesOf(run[|run|-1])
  }

  function CostIn(run: seq<Live>): real {
    if run == [] then 0.0
    else
      var usage := UsageReport(run[|run|-1]);
      CostIn(run[..|run|-1]) + if usage.Some? && usage.value.cost.Some? then usage.value.cost.value else 0.0
  }

  // ---------------------------------------------------------------- notices among the entries

  function Notices(es: seq<Entry>): seq<string> {
    if es == [] then [] else Notices(es[..|es|-1]) + if es[|es|-1].Notice? then [es[|es|-1].notice] else []
  }

  lemma {:induction false} NoticesUpdated(es: seq<Entry>, i: nat, e: Entry)
    requires i < |es| && !es[i].Notice? && !e.Notice?
    ensures Notices(es[i := e]) == Notices(es)
    decreases |es|
  {
    var n := |es| - 1;
    if i < n {
      assert es[i := e][..n] == es[..n][i := e];
      NoticesUpdated(es[..n], i, e);
    } else {
      assert es[i := e][..n] == es[..n];
    }
  }

  lemma NoticesAdded(es: seq<Entry>, e: Entry)
    ensures Notices(es + [e]) == Notices(es) + if e.Notice? then [e.notice] else []
  {
    assert (es + [e])[..|es|] == es;
  }

  /** An action adds its notice, or leaves the notices alone. */
  lemma NoticesAfter(es: seq<Entry>, a: Action)
    ensures Notices(ApplyEntries(es, a)) == Notices(es) + if a.NoticeAdded? then [a.text] else []
  {
    assert Notices(es) + [] == Notices(es);
    match a
    case MessageAdded(id, role, stable) => NoticesAdded(es, Message(id, stable, role, "", ""));
    case NoticeAdded(text) => NoticesAdded(es, Notice(text));
    case ModelInUse(provider, modelId) => NoticesAdded(es, Model(provider, modelId));
    case ToolChanged(id, _, _, _, _) =>
      var at := Last(es, e => IsCard(e, id));
      if at.Some? { NoticesUpdated(es, at.value, ChangedCard(es[at.value], a)); } else { NoticesAdded(es, NewCard(a)); }
    case TextAppended(id, text) =>
      var at := Last(es, e => IsMessage(e, id));
      if at.Some? { NoticesUpdated(es, at.value, es[at.value].(text := es[at.value].text + text)); }
    case ThinkingAppended(id, text) =>
      var at := Last(es, e => IsMessage(e, id));
      if at.Some? { NoticesUpdated(es, at.value, es[at.value].(thinking := es[at.value].thinking + text)); }
    case ConfirmRequested(confirm) =>
      var at := Last(es, Active);
      if at.Some? { NoticesUpdated(es, at.value, es[at.value].(status := Pending, confirm := Some(confirm))); }
    case _ =>
  }

  // ---------------------------------------------------------------- the live ledger's status

  /** The snapshot after a run. */
  function LiveSnapshot(run: seq<Live>): Snapshot { ApplyAll(EMPTY, FoldLive(FOLDER_INIT, run).1) }

  /** The ledger shows the status the run reported. */
  predicate ShowsStatus(s: Snapshot, run: seq<Live>) {
    && s.busy == Latest(run, BusyReport, false)
    && s.compacting == Latest(run, CompactionReport, false)
    && s.retry == Latest(run, RetryReport, None)
    && s.queue == Latest(run, QueueReport, Queue([], []))
    && s.thinking == Thinking(Latest(run, LevelReport, "off"), ["off"])
    && s.context == EMPTY.context
    && s.totalCost == CostIn(run)
  }

  predicate Shows(s: Snapshot, run: seq<Live>) { ShowsStatus(s, run) && Notices(s.entries) == NoticesIn(run) }

  lemma AppliedOneOrTwo(s: Snapshot, actions: seq<Action>)
    requires |actions| <= 2
    ensures ApplyAll(s, actions) == if |actions| == 0 then s
                                    else if |actions| == 1 then Apply(s, actions[0])
                                    else Apply(Apply(s, actions[0]), actions[1])
  {
    if |actions| == 2 {
      assert actions[..1][..0] == [];
      assert actions[..1] == [actions[0]];
    }
  }

  lemma LatestNext<T>(run: seq<Live>, l: Live, report: Live -> Option<T>, initial: T)
    ensures Latest(run + [l], report, initial)
            == if report(l).Some? then report(l).value else Latest(run, report, initial)
  {
    assert (run + [l])[..|run|] == run;
  }

  /** The status fields alone. */
  function Fields(s: Snapshot): Snapshot { s.(entries := []) }

  /** What one report does to the status. */
  function Reported(s: Snapshot, l: Live, cost: real, tokens: real): Snapshot {
    s.(busy := if BusyReport(l).Some? then BusyReport(l).value else s.busy,
       compacting := if CompactionReport(l).Some? then CompactionReport(l).value else s.compacting,
       retry := if RetryReport(l).Some? then RetryReport(l).value else s.retry,
       queue := if QueueReport(l).Some? then QueueReport(l).value else s.queue,
       thinking := if LevelReport(l).Some? then s.thinking.(level := LevelReport(l).value) else s.thinking,
       totalCost := cost, totalTokens := tokens)
  }

  /** Streaming and tools do not touch the status. */
  predicate Plain(l: Live) {
    match l
    case Pi(MessageStart(_, _)) => true
    case Pi(TextDelta(_)) => true
    case Pi(ThinkingDelta(_)) => true
    case Pi(ToolStart(_, _, _)) => true
    case Pi(ToolUpdate(_, _, _, _)) => true
    case Pi(ToolEnd(_, _, _, _)) => true
    case Pi(IgnoredEvent) => true
    case Pi(_) => false
    case _ => true
  }

  lemma PlainReport(s: Snapshot, f: FolderState, l: Live)
    requires Plain(l) && s.totalCost == f.cost && s.totalTokens == f.tokens
    ensures Fields(ApplyAll(s, LiveActions(f, l).1)) == Fields(Reported(s, l, f.cost, f.tokens))
  {
    AppliedOneOrTwo(s, LiveActions(f, l).1);
  }

  /** Reports that come with a notice. */
  predicate WithNotice(l: Live) { l.Pi? && (l.event.CompactionEnd? || l.event.RetryEnd?) }

  predicate OfUsage(l: Live) { l.Pi? && l.event.MessageEnd? }

  lemma ReportOfUsage(s: Snapshot, f: FolderState, l: Live)
    requires OfUsage(l) && s.totalCost == f.cost && s.totalTokens == f.tokens
    ensures var f' := LiveActions(f, l).0;
            Fields(ApplyAll(s, LiveActions(f, l).1)) == Fields(Reported(s, l, f'.cost, f'.tokens))
  {
    AppliedOneOrTwo(s, LiveActions(f, l).1);
  }

  lemma SingleReport(s: Snapshot, f: FolderState, l: Live)
    requires !Plain(l) && !WithNotice(l) && !OfUsage(l) && s.totalCost == f.cost && s.totalTokens == f.tokens
    ensures var f' := LiveActions(f, l).0;
            Fields(ApplyAll(s, LiveActions(f, l).1)) == Fields(Reported(s, l, f'.cost, f'.tokens))
  {
    AppliedOneOrTwo(s, LiveActions(f, l).1);
  }

  lemma CompactionReported(s: Snapshot, f: FolderState, l: Live)
    requires WithNotice(l) && l.event.CompactionEnd? && s.totalCost == f.cost && s.totalTokens == f.tokens
    requires s.context.window.None?
    ensures Fields(ApplyAll(s, LiveActions(f, l).1)) == Fields(Reported(s, l, f.cost, f.tokens))
  {
    AppliedOneOrTwo(s, LiveActions(f, l).1);
  }

  lemma RetryReported(s: Snapshot, f: FolderState, l: Live)
    requires WithNotice(l) && l.event.RetryEnd? && s.totalCost == f.cost && s.totalTokens == f.tokens
    ensures Fields(ApplyAll(s, LiveActions(f, l).1)) == Fields(Reported(s, l, f.cost, f.tokens))
  {
    AppliedOneOrTwo(s, LiveActions(f, l).1);
  }

  /** What one thing that happens does to the status of the ledger. */
  lemma OneReport(s: Snapshot, f: FolderState, l: Live)
    requires s.totalCost == f.cost && s.totalTokens == f.tokens && s.context.window.None?
    ensures var f' := LiveActions(f, l).0;
            Fields(ApplyAll(s, LiveActions(f, l).1)) == Fields(Reported(s, l, f'.cost, f'.tokens))
  {
    if Plain(l) { PlainReport(s, f, l); }
    else if WithNotice(l) && l.event.RetryEnd? { RetryReported(s, f, l); }
    else if WithNotice(l) { CompactionReported(s, f, l); }
    else if OfUsage(l) { ReportOfUsage(s, f, l); }
    else { SingleReport(s, f, l); }
  }

  lemma CostNext(f: FolderState, run: seq<Live>, l: Live)
    requires f.cost == CostIn(run)
    ensures LiveActions(f, l).0.cost == CostIn(run + [l])
  {
    assert (run + [l])[..|run|] == run;
  }

  /** The latest reports, with one more. */
  lemma ShowsNext(s: Snapshot, s': Snapshot, run: seq<Live>, l: Live, tokens: real)
    requires ShowsStatus(s, run) && Fields(s') == Fields(Reported(s, l, CostIn(run + [l]), tokens))
    ensures ShowsStatus(s', run + [l])
  {
    LatestNext(run, l, BusyReport, false);
    LatestNext(run, l, CompactionReport, false);
    LatestNext(run, l, RetryReport, None);
    LatestNext(run, l, QueueReport, Queue([], []));
    LatestNext(run, l, LevelReport, "off");
    assert s'.busy == Fields(s').busy && s'.compacting == Fields(s').compacting && s'.retry == Fields(s').retry;
    assert s'.queue == Fields(s').queue && s'.thinking == Fields(s').thinking && s'.context == Fields(s').context;
  }

  /** The notices among some actions. */
  function Told(actions: seq<Action>): seq<string> {
    if actions == [] then []
    else Told(actions[..|actions|-1])
         + if actions[|actions|-1].NoticeAdded? then [actions[|actions|-1].text] else []
  }

  lemma {:induction false} NoticesAfterAll(s: Snapshot, actions: seq<Action>)
    ensures Notices(ApplyAll(s, actions).entries) == Notices(s.entries) + Told(actions)
    decreases |actions|
  {
    if actions == [] {
      assert Notices(s.entries) + [] == Notices(s.entries);
    } else {
      var before, a := actions[..|actions|-1], actions[|actions|-1];
      NoticesAfterAll(s, before);
      EntriesOnly(ApplyAll(s, before), a);
      NoticesAfter(ApplyAll(s, before).entries, a);
    }
  }

  function ToldBy(a: Action): seq<string> { if a.NoticeAdded? then [a.text] else [] }

  lemma ToldByTwo(actions: seq<Action>)
    requires |actions| <= 2
    ensures Told(actions) == if |actions| == 0 then []
                             else if |actions| == 1 then ToldBy(actions[0])
                             else ToldBy(actions[0]) + ToldBy(actions[1])
  {
    if |actions| == 1 { assert actions[..0] == []; }
    if |actions| == 2 {
      assert actions[..1][..0] == [];
      assert Told(actions[..1]) == [] + ToldBy(actions[0]);
    }
  }

  lemma NothingTold(f: FolderState, l: Live)
    requires !WithNotice(l) && !l.Say?
    ensures forall a :: a in LiveActions(f, l).1 ==> !a.NoticeAdded?
    ensures |LiveActions(f, l).1| <= 2
  {
  }

  lemma ToldByOne(f: FolderState, l: Live)
    ensures Told(LiveActions(f, l).1) == NoticesOf(l)
  {
    if WithNotice(l) || l.Say? {
      ToldByTwo(LiveActions(f, l).1);
    } else {
      NothingTold(f, l);
      ToldByTwo(LiveActions(f, l).1);
    }
  }

  lemma SnapshotNext(run: seq<Live>, l: Live)
    ensures var f := FoldLive(FOLDER_INIT, run).0;
            && LiveSnapshot(run + [l]) == ApplyAll(LiveSnapshot(run), LiveActions(f, l).1)
            && FoldLive(FOLDER_INIT, run + [l]).0 == LiveActions(f, l).0
  {
    var (f, before) := FoldLive(FOLDER_INIT, run);
    FoldLiveConcat(FOLDER_INIT, run, [l]);
    FoldLiveOne(f, l);
    ApplyAllConcat(EMPTY, before, LiveActions(f, l).1);
  }

  lemma {:induction false} StatusAndCost(run: seq<Live>)
    ensures ShowsStatus(LiveSnapshot(run), run) && LiveSnapshot(run).totalCost == FoldLive(FOLDER_INIT, run).0.cost
    decreases |run|
  {
    if run != [] {
      var before, l := run[..|run|-1], run[|run|-1];
      assert run == before + [l];
      StatusAndCost(before);
      LiveTotals(before);
      SnapshotNext(before, l);
      var s, f := LiveSnapshot(before), FoldLive(FOLDER_INIT, before).0;
      OneReport(s, f, l);
      CostNext(f, before, l);
      ShowsNext(s, LiveSnapshot(run), before, l, LiveActions(f, l).0.tokens);
    }
  }

  lemma {:induction false} NoticesAreAll(run: seq<Live>)
    ensures Notices(LiveSnapshot(run).entries) == NoticesIn(run)
    decreases |run|
  {
    if run != [] {
      var before, l := run[..|run|-1], run[|run|-1];
      assert run == before + [l];
      NoticesAreAll(before);
      SnapshotNext(before, l);
      var f := FoldLive(FOLDER_INIT, before).0;
      NoticesAfterAll(LiveSnapshot(before), LiveActions(f, l).1);
      ToldByOne(f, l);
    }
  }

  /** After any run: the status as last reported, every notice in order, and the usage added up. */
  lemma StatusIsAsReported(run: seq<Live>)
    ensures Shows(LiveSnapshot(run), run) && LiveSnapshot(run).totalTokens == TokensIn(run)
  {
    StatusAndCost(run);
    NoticesAreAll(run);
    LiveTotals(run);
  }

  // ---------------------------------------------------------------- the rebuilt ledger's usage

  /** The usage stored with a message that is drawn. */
  function UsageOf(e: Stored): Option<Usage> {
    match e
    case StoredMessage(Some(id), Some(ChatBody(_, _, _, usage))) => if id == "" then None else usage
    case _ => None
  }

  function Sum(entries: seq<Stored>, amount: Usage -> Option<real>): real {
    if entries == [] then 0.0
    else
      var usage := UsageOf(entries[|entries|-1]);
      Sum(entries[..|entries|-1], amount)
      + if usage.Some? && amount(usage.value).Some? then amount(usage.value).value else 0.0
  }

  const TOKENS := (u: Usage) => u.totalTokens
  const COST := (u: Usage) => u.cost

  /** Actions on the entries leave the totals alone. */
  lemma {:induction false} TotalsKept(s: Snapshot, actions: seq<Action>)
    requires forall a :: a in actions ==> !a.UsageChanged?
    ensures ApplyAll(s, actions).totalTokens == s.totalTokens && ApplyAll(s, actions).totalCost == s.totalCost
    decreases |actions|
  {
    if actions != [] { TotalsKept(s, actions[..|actions|-1]); }
  }

  lemma {:induction false} PartsHaveNoUsage(id: string, parts: seq<Part>, recover: bool)
    ensures forall a :: a in PartActions(id, parts, recover) ==> !a.UsageChanged?
  {
    if parts != [] { PartsHaveNoUsage(id, parts[1..], recover); }
  }

  lemma EntryTotals(s: Snapshot, t: Totals, e: Stored)
    requires s.totalTokens == t.tokens && s.totalCost == t.cost
    ensures var (t', actions) := FoldEntry(t, e);
            ApplyAll(s, actions).totalTokens == t'.tokens && ApplyAll(s, actions).totalCost == t'.cost
  {
    var (t', actions) := FoldEntry(t, e);
    match e
    case StoredMessage(Some(id), Some(ChatBody(role, parts, _, usage))) =>
      if id != "" {
        PartsHaveNoUsage(id, parts, RecoversThinking(e.message.value));
        if usage.Some? { assert actions[|actions|-1] == UsageChanged(t'.tokens, t'.cost); }
        else { TotalsKept(s, actions); }
      }
    case _ => TotalsKept(s, actions);
  }

  lemma {:induction false} FoldedUsage(entries: seq<Stored>)
    ensures var t := FoldAll(Totals(0.0, 0.0), entries).0;
            t.tokens == Sum(entries, TOKENS) && t.cost == Sum(entries, COST)
    decreases |entries|
  {
    if entries != [] {
      var before, e := entries[..|entries|-1], entries[|entries|-1];
      FoldedUsage(before);
      assert before + [e] == entries;
      FoldAllSnoc(Totals(0.0, 0.0), before, e);
    }
  }

  lemma {:induction false} ShownUsage(entries: seq<Stored>)
    ensures var (t, actions) := FoldAll(Totals(0.0, 0.0), entries);
            var s := ApplyAll(EMPTY, actions);
            s.totalTokens == t.tokens && s.totalCost == t.cost
    decreases |entries|
  {
    if entries != [] {
      var before, e := entries[..|entries|-1], entries[|entries|-1];
      ShownUsage(before);
      assert before + [e] == entries;
      FoldAllSnoc(Totals(0.0, 0.0), before, e);
      var (t, actions) := FoldAll(Totals(0.0, 0.0), before);
      ApplyAllConcat(EMPTY, actions, FoldEntry(t, e).1);
      EntryTotals(ApplyAll(EMPTY, actions), t, e);
    }
  }

  /** The rebuilt ledger shows the sum of the usage stored with its messages. */
  lemma StoredTotals(entries: seq<Stored>)
    ensures var s := ApplyAll(EMPTY, FoldAll(Totals(0.0, 0.0), entries).1);
            s.totalTokens == Sum(entries, TOKENS) && s.totalCost == Sum(entries, COST)
  {
    FoldedUsage(entries);
    ShownUsage(entries);
  }

  // ---------------------------------------------------------------- cards and context, action by action

  /** The card of a call, if there is one. */
  function CardOf(es: seq<Entry>, id: string): Option<Entry> {
    var at := Last(es, e => IsCard(e, id));
    if at.None? then None else Some(es[at.value])
  }

  function OrElse(a: Option<string>, b: Option<string>): Option<string> { if a.Some? then a else b }

  /**
   A reported change of a tool call is on its card, which is there from then on: the new status, the
   arguments and the result if they were given and otherwise as before. Other calls' cards stay.
   */
  lemma CardShowsTheChange(es: seq<Entry>, id: string, name: string, args: Option<string>, status: ToolStatus,
                           result: Option<string>)
    ensures var es' := ApplyEntries(es, ToolChanged(id, name, args, status, result));
            && CardOf(es', id).Some?
            && var was, now := CardOf(es, id), CardOf(es', id).value;
               && now.status == status
               && now.args == OrElse(args, if was.Some? then was.value.args else None)
               && now.result == OrElse(result, if was.Some? then was.value.result else None)
               && now.toolName == (if was.Some? then was.value.toolName else name)
               && (now.confirm.Some? ==> status.Pending? && was.Some? && now.confirm == was.value.confirm)
    ensures forall other :: other != id ==>
              CardOf(ApplyEntries(es, ToolChanged(id, name, args, status, result)), other) == CardOf(es, other)
  {
    var a := ToolChanged(id, name, args, status, result);
    var es' := ApplyEntries(es, a);
    var at := Last(es, e => IsCard(e, id));
    var k := if at.Some? then at.value else |es|;
    LastIs(es', e => IsCard(e, id), k);
    forall other | other != id ensures CardOf(es', other) == CardOf(es, other) {
      var before := Last(es, e => IsCard(e, other));
      if before.Some? { LastIs(es', e => IsCard(e, other), before.value); }
    }
  }

  lemma OneEvent(f: FolderState, es: seq<Entry>, e: Event, a: Action)
    requires FoldEvent(f, e).1 == [a]
    ensures Drawn(f, es, [Pi(e)]) == ApplyEntries(es, a)
  {
    FoldLiveOne(f, Pi(e));
    OneAction(es, a);
  }

  /** A tool's card runs from the start on, with its arguments. */
  lemma ToolStartShows(f: FolderState, es: seq<Entry>, id: string, name: string, args: Option<string>)
    ensures var card := CardOf(Drawn(f, es, [Pi(ToolStart(id, name, args))]), id);
            card.Some? && card.value.status.Running? && (args.Some? ==> card.value.args == args)
  {
    OneEvent(f, es, ToolStart(id, name, args), ToolChanged(id, name, args, Running, None));
    CardShowsTheChange(es, id, name, args, Running, None);
  }

  /** ... shows the output so far, in place of what it showed before ... */
  lemma ToolUpdateShows(f: FolderState, es: seq<Entry>, id: string, name: string, args: Option<string>,
                        output: seq<Part>)
    ensures var card := CardOf(Drawn(f, es, [Pi(ToolUpdate(id, name, args, output))]), id);
            card.Some? && card.value.status.Running? && card.value.result == Some(ExtractText(output))
  {
    var text := ExtractText(output);
    OneEvent(f, es, ToolUpdate(id, name, args, output), ToolChanged(id, name, args, Running, Some(text)));
    CardShowsTheChange(es, id, name, args, Running, Some(text));
  }

  /** ... and in the end its outcome. */
  lemma ToolEndShows(f: FolderState, es: seq<Entry>, id: string, name: string, isError: bool, outcome: seq<Part>)
    ensures var card := CardOf(Drawn(f, es, [Pi(ToolEnd(id, name, isError, outcome))]), id);
            card.Some? && card.value.status == (if isError then Errored else Finished)
            && card.value.result == Some(ExtractText(outcome))
  {
    var text, status := ExtractText(outcome), if isError then Errored else Finished;
    OneEvent(f, es, ToolEnd(id, name, isError, outcome), ToolChanged(id, name, None, status, Some(text)));
    CardShowsTheChange(es, id, name, None, status, Some(text));
  }

  /** A question is on the most recent active card, whole, and on no other. */
  lemma QuestionIsAsked(es: seq<Entry>, confirm: Confirm, k: nat)
    requires k < |es| && Active(es[k]) && forall j :: k < j < |es| ==> !Active(es[j])
    ensures var es' := ApplyEntries(es, ConfirmRequested(confirm));
            && |es'| == |es| && (forall j :: 0 <= j < |es| && j != k ==> es'[j] == es[j])
            && es'[k].Tool? && es'[k].status.Pending? && es'[k].confirm == Some(confirm)
            && es'[k].toolCallId == es[k].toolCallId && es'[k].args == es[k].args && es'[k].result == es[k].result
  {
    LastIs(es, Active, k);
  }

  /** A reported context or thinking level is shown; a level that comes alone keeps the levels there are. */
  lemma ReportsAreShown(s: Snapshot, context: Context, level: string, available: seq<string>)
    ensures Apply(s, ContextChanged(context)) == s.(context := context)
    ensures Apply(s, ThinkingChanged(level, Some(available))) == s.(thinking := Thinking(level, available))
    ensures Apply(s, ThinkingChanged(level, None)) == s.(thinking := s.thinking.(level := level))
  {
  }

  /** A finished compaction's estimate stands as the context, where the window is known. */
  lemma CompactionEstimates(s: Snapshot, estimate: real, window: real)
    requires s.context.window == Some(window)
    ensures var t := Apply(s, CompactionChanged(false, Some(estimate)));
            t.context == Context(Some(estimate), Some(window), Some(Ratio(estimate, window)), true) && !t.compacting
    ensures Apply(s, CompactionChanged(true, Some(estimate))).context == s.context
  {
  }
}
