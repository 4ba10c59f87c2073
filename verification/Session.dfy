/**
 The session ledger: what the interface currently shows, maintained by view actions. `Apply` is
 the specification; class `Ledger` is the mutable object that server and clients hold.
 */
module Session {
  import opened Common

  datatype Role = User | Assistant
  datatype ToolStatus = Pending | Running | Finished | Errored

  datatype Confirm = Confirm(requestId: string, title: Option<string>, message: Option<string>)

  datatype Entry =
    | Message(messageId: string, stableId: bool, role: Role, text: string, thinking: string)
    | Tool(toolCallId: string, toolName: string, args: Option<string>, status: ToolStatus,
           result: Option<string>, confirm: Option<Confirm>)
    | Notice(notice: string)
    | Model(provider: string, modelId: string)

  /** `Ratio` is a percentage left uncomputed: a quotient the ledger derives itself. */
  datatype Percent = Reported(value: real) | Ratio(tokens: real, window: real)

  datatype Context = Context(tokens: Option<real>, window: Option<real>, percent: Option<Percent>, estimated: bool)
  datatype Retry = Retry(attempt: nat, maxAttempts: nat, delayMs: nat, retryAt: nat, errorMessage: string)
  datatype Thinking = Thinking(level: string, available: seq<string>)
  datatype Queue = Queue(steering: seq<string>, followUp: seq<string>)

  datatype Snapshot = Snapshot(entries: seq<Entry>, totalTokens: real, totalCost: real, busy: bool, compacting: bool,
                               retry: Option<Retry>, context: Context, thinking: Thinking, queue: Queue)

  datatype Action =
    | MessageAdded(messageId: string, role: Role, stableId: bool)
    | TextAppended(messageId: string, text: string)
    | ThinkingAppended(messageId: string, text: string)
    | ToolChanged(toolCallId: string, toolName: string, args: Option<string>, status: ToolStatus,
                  result: Option<string>)
    | ConfirmRequested(confirm: Confirm)
    | NoticeAdded(text: string)
    | ModelInUse(provider: string, modelId: string)
    | UsageChanged(totalTokens: real, totalCost: real)
    | BusyChanged(busy: bool)
    | ContextChanged(context: Context)
    | ThinkingChanged(level: string, available: Option<seq<string>>)
    | CompactionChanged(compacting: bool, estimatedTokensAfter: Option<real>)
    | RetryChanged(retry: Option<Retry>)
    | QueueChanged(queue: Queue)

  const EMPTY := Snapshot([], 0.0, 0.0, false, false, None, Context(None, None, None, false),
                          Thinking("off", ["off"]), Queue([], []))

  predicate IsMessage(e: Entry, id: string) { e.Message? && e.messageId == id }
  predicate IsCard(e: Entry, id: string) { e.Tool? && e.toolCallId == id }
  predicate Active(e: Entry) { e.Tool? && (e.status.Running? || e.status.Pending?) }

  /** The most recent entry that satisfies `p`. */
  function Last(es: seq<Entry>, p: Entry -> bool): (r: Option<nat>)
    ensures r.Some? ==> r.value < |es| && p(es[r.value]) && forall k :: r.value < k < |es| ==> !p(es[k])
    ensures r.None? ==> forall k :: 0 <= k < |es| ==> !p(es[k])
  {
    if es == [] then None else if p(es[|es|-1]) then Some(|es| - 1) else Last(es[..|es|-1], p)
  }

  function ChangedCard(e: Entry, a: Action): Entry
    requires e.Tool? && a.ToolChanged?
  {
    e.(status := a.status,
       args := if a.args.Some? then a.args else e.args,
       result := if a.result.Some? then a.result else e.result,
       confirm := if a.status.Pending? then e.confirm else None)
  }

  function NewCard(a: Action): Entry
    requires a.ToolChanged?
  {
    Tool(a.toolCallId, a.toolName, a.args, a.status, a.result, None)
  }

  /** The effect of an action on the entries. */
  function ApplyEntries(es: seq<Entry>, a: Action): seq<Entry> {
    match a
    case MessageAdded(id, role, stable) => es + [Message(id, stable, role, "", "")]
    case TextAppended(id, text) =>
      var at := Last(es, e => IsMessage(e, id));
      if at.None? then es else es[at.value := es[at.value].(text := es[at.value].text + text)]
    case ThinkingAppended(id, text) =>
      var at := Last(es, e => IsMessage(e, id));
      if at.None? then es else es[at.value := es[at.value].(thinking := es[at.value].thinking + text)]
    case ToolChanged(id, _, _, _, _) =>
      var at := Last(es, e => IsCard(e, id));
      if at.None? then es + [NewCard(a)] else es[at.value := ChangedCard(es[at.value], a)]
    case ConfirmRequested(confirm) =>
      var at := Last(es, Active);
      if at.None? then es else es[at.value := es[at.value].(status := Pending, confirm := Some(confirm))]
    case NoticeAdded(text) => es + [Notice(text)]
    case ModelInUse(provider, modelId) => es + [Model(provider, modelId)]
    case _ => es
  }

  function Compacted(c: Context, a: Action): Context
    requires a.CompactionChanged?
  {
    if !a.compacting && a.estimatedTokensAfter.Some? && c.window.Some?
    then Context(a.estimatedTokensAfter, c.window, Some(Ratio(a.estimatedTokensAfter.value, c.window.value)), true)
    else c
  }

  function Apply(s: Snapshot, a: Action): Snapshot {
    match a
    case UsageChanged(tokens, cost) => s.(totalTokens := tokens, totalCost := cost)
    case BusyChanged(busy) => s.(busy := busy)
    case ContextChanged(context) => s.(context := context)
    case ThinkingChanged(level, available) =>
      s.(thinking := Thinking(level, if available.Some? then available.value else s.thinking.available))
    case CompactionChanged(compacting, _) => s.(compacting := compacting, context := Compacted(s.context, a))
    case RetryChanged(retry) => s.(retry := retry)
    case QueueChanged(queue) => s.(queue := queue)
    case _ => s.(entries := ApplyEntries(s.entries, a))
  }

  function ApplyAll(s: Snapshot, actions: seq<Action>): Snapshot {
    if actions == [] then s else Apply(ApplyAll(s, actions[..|actions|-1]), actions[|actions|-1])
  }

  predicate OneCardPerCall(es: seq<Entry>) {
    forall i, j :: 0 <= i < j < |es| && es[i].Tool? && es[j].Tool? ==> es[i].toolCallId != es[j].toolCallId
  }

  predicate ConfirmOnlyPending(es: seq<Entry>) {
    forall i :: 0 <= i < |es| && es[i].Tool? && es[i].confirm.Some? ==> es[i].status.Pending?
  }

  lemma ApplyEntriesKeepsCards(es: seq<Entry>, a: Action)
    requires OneCardPerCall(es) && ConfirmOnlyPending(es)
    ensures OneCardPerCall(ApplyEntries(es, a)) && ConfirmOnlyPending(ApplyEntries(es, a))
  {
  }

  /**
   Whatever is applied to an empty ledger, a tool call never has two cards, and only a pending card
   awaits an answer.
   */
  lemma {:induction false} ReachableCards(actions: seq<Action>)
    ensures OneCardPerCall(ApplyAll(EMPTY, actions).entries)
    ensures ConfirmOnlyPending(ApplyAll(EMPTY, actions).entries)
  {
    if actions != [] {
      ReachableCards(actions[..|actions|-1]);
      ApplyEntriesKeepsCards(ApplyAll(EMPTY, actions[..|actions|-1]).entries, actions[|actions|-1]);
    }
  }

  // ---------------------------------------------------------------- the mutable ledger

  /** One entry object of the ledger, updated in place. */
  class Card {
    var entry: Entry

    constructor (entry: Entry)
      ensures this.entry == entry
    {
      this.entry := entry;
    }
  }

  class Ledger {
    var cards: seq<Card>
    var totalTokens: real
    var totalCost: real
    var busy: bool
    var compacting: bool
    var retry: Option<Retry>
    var context: Context
    var thinking: Thinking
    var queue: Queue

    /** Every entry is an object of its own. */
    ghost predicate Valid()
      reads this
    {
      forall i, j :: 0 <= i < j < |cards| ==> cards[i] != cards[j]
    }

    function Entries(): (es: seq<Entry>)
      reads this, cards
      ensures |es| == |cards|
    {
      seq(|cards|, i requires 0 <= i < |cards| reads this, cards => cards[i].entry)
    }

    function Contents(): Snapshot
      reads this, cards
    {
      Snapshot(Entries(), totalTokens, totalCost, busy, compacting, retry, context, thinking, queue)
    }

    constructor (initial: Snapshot)
      ensures Valid() && Contents() == initial && fresh(set c | c in cards)
    {
      cards := [];
      totalTokens, totalCost := initial.totalTokens, initial.totalCost;
      busy, compacting, retry := initial.busy, initial.compacting, initial.retry;
      context, thinking, queue := initial.context, initial.thinking, initial.queue;
      new;
      for i := 0 to |initial.entries|
        invariant |cards| == i && Valid() && fresh(set c | c in cards)
        invariant Entries() == initial.entries[..i]
        invariant Contents() == initial.(entries := initial.entries[..i])
      {
        var card := new Card(initial.entries[i]);
        cards := cards + [card];
      }
    }

    /** A copy: later changes to the ledger do not reach it. */
    method TakeSnapshot() returns (s: Snapshot)
      ensures s == Contents()
    {
      s := Contents();
    }

    /** Search from the end. */
    method FindLast(p: Entry -> bool) returns (r: Option<nat>)
      ensures r == Last(Entries(), p)
    {
      var i := |cards|;
      while i > 0
        invariant 0 <= i <= |cards|
        invariant Last(Entries(), p) == Last(Entries()[..i], p)
      {
        i := i - 1;
        assert Entries()[..i+1][..i] == Entries()[..i];
        if p(cards[i].entry) { return Some(i); }
      }
      r := None;
    }

    method Push(entry: Entry)
      requires Valid()
      modifies this`cards
      ensures Valid() && |cards| == |old(cards)| + 1 && old(cards) == cards[..|old(cards)|]
      ensures fresh(cards[|old(cards)|])
      ensures Entries() == old(Entries()) + [entry]
    {
      var card := new Card(entry);
      cards := cards + [card];
    }

    method Update(i: nat, entry: Entry)
      requires Valid() && i < |cards|
      modifies cards[i]
      ensures Valid() && Entries() == old(Entries())[i := entry]
    {
      cards[i].entry := entry;
    }

    /** The actions that concern the entries. */
    static predicate OnEntries(a: Action) {
      a.MessageAdded? || a.TextAppended? || a.ThinkingAppended? || a.ToolChanged? || a.ConfirmRequested?
      || a.NoticeAdded? || a.ModelInUse?
    }

    method PerformOnFields(a: Action)
      requires !OnEntries(a)
      modifies `totalTokens, `totalCost, `busy, `compacting, `retry, `context, `thinking, `queue
      ensures Contents() == Apply(old(Contents()), a)
    {
      match a
      case UsageChanged(tokens, cost) => totalTokens, totalCost := tokens, cost;
      case BusyChanged(b) => busy := b;
      case ContextChanged(c) => context := c;
      case ThinkingChanged(level, available) =>
        thinking := Thinking(level, if available.Some? then available.value else thinking.available);
      case CompactionChanged(c, estimate) =>
        compacting := c;
        if !c && estimate.Some? && context.window.Some? {
          context := Context(estimate, context.window, Some(Ratio(estimate.value, context.window.value)), true);
        }
      case RetryChanged(r) => retry := r;
      case QueueChanged(q) => queue := q;
      case _ =>
    }

    method AppendTo(a: Action, id: string)
      requires Valid() && (a.TextAppended? || a.ThinkingAppended?) && a.messageId == id
      modifies cards
      ensures Valid() && Entries() == ApplyEntries(old(Entries()), a)
    {
      var at := FindLast(e => IsMessage(e, id));
      if at.Some? {
        var e := cards[at.value].entry;
        Update(at.value, if a.TextAppended? then e.(text := e.text + a.text) else e.(thinking := e.thinking + a.text));
      }
    }

    method ChangeTool(a: Action)
      requires Valid() && a.ToolChanged?
      modifies this`cards, cards
      ensures Valid() && Entries() == ApplyEntries(old(Entries()), a)
      ensures forall c :: c in cards ==> c in old(cards) || fresh(c)
    {
      var at := FindLast(e => IsCard(e, a.toolCallId));
      if at.Some? {
        Update(at.value, ChangedCard(cards[at.value].entry, a));
      } else {
        Push(NewCard(a));
      }
    }

    method RequestConfirm(confirm: Confirm)
      requires Valid()
      modifies cards
      ensures Valid() && Entries() == ApplyEntries(old(Entries()), ConfirmRequested(confirm))
    {
      var at := FindLast(Active);
      if at.Some? {
        Update(at.value, cards[at.value].entry.(status := Pending, confirm := Some(confirm)));
      }
    }

    method PerformOnEntries(a: Action)
      requires Valid()
      modifies this`cards, cards
      ensures Valid() && Entries() == ApplyEntries(old(Entries()), a)
      ensures forall c :: c in cards ==> c in old(cards) || fresh(c)
    {
      match a
      case MessageAdded(id, role, stable) => Push(Message(id, stable, role, "", ""));
      case TextAppended(id, _) => AppendTo(a, id);
      case ThinkingAppended(id, _) => AppendTo(a, id);
      case ToolChanged(_, _, _, _, _) => ChangeTool(a);
      case ConfirmRequested(confirm) => RequestConfirm(confirm);
      case NoticeAdded(text) => Push(Notice(text));
      case ModelInUse(provider, modelId) => Push(Model(provider, modelId));
      case _ =>
    }

    method Perform(a: Action)
      requires Valid()
      modifies this, cards
      ensures Valid() && Contents() == Apply(old(Contents()), a)
      ensures forall c :: c in cards ==> c in old(cards) || fresh(c)
    {
      if OnEntries(a) { PerformOnEntries(a); } else { PerformOnFields(a); }
    }
  }

  /** The two ledgers share no object. */
  ghost predicate Apart(a: Ledger, b: Ledger)
    reads a, b
  {
    a != b && forall c :: !(c in a.cards && c in b.cards)
  }

  method PerformOnBoth(server: Ledger, client: Ledger, a: Action)
    requires server.Valid() && client.Valid() && Apart(server, client) && client.Contents() == server.Contents()
    modifies server, server.cards, client, client.cards
    ensures server.Valid() && client.Valid() && Apart(server, client)
    ensures server.Contents() == Apply(old(server.Contents()), a) && client.Contents() == server.Contents()
    ensures forall c :: c in server.cards ==> c in old(server.cards) || fresh(c)
    ensures forall c :: c in client.cards ==> c in old(client.cards) || fresh(c)
  {
    ghost var was, clientCards, serverCards := client.Contents(), client.cards, server.cards;
    assert forall k :: 0 <= k < |clientCards| ==> clientCards[k] in clientCards && clientCards[k] !in serverCards;
    server.Perform(a);
    assert client.Contents() == was;
    ghost var now := server.Contents();
    serverCards := server.cards;
    assert forall k :: 0 <= k < |serverCards| ==> serverCards[k] in serverCards && serverCards[k] !in clientCards;
    client.Perform(a);
    assert server.Contents() == now;
  }

  /**
   A client takes a snapshot of the server's ledger at any moment and follows the later actions.
   It shows what the server shows, for ever, and shares no entry object with it.
   */
  method Mirror(server: Ledger, later: seq<Action>) returns (client: Ledger)
    requires server.Valid()
    modifies server, server.cards
    ensures server.Valid() && client.Valid() && Apart(server, client)
    ensures server.Contents() == ApplyAll(old(server.Contents()), later)
    ensures client.Contents() == server.Contents()
  {
    var snapshot := server.TakeSnapshot();
    client := new Ledger(snapshot);
    for i := 0 to |later|
      invariant server.Valid() && client.Valid() && Apart(server, client) && fresh(client)
      invariant forall c :: c in client.cards ==> fresh(c)
      invariant forall c :: c in server.cards ==> c in old(server.cards) || fresh(c)
      invariant server.Contents() == ApplyAll(old(server.Contents()), later[..i])
      invariant client.Contents() == server.Contents()
    {
      assert later[..i+1][..i] == later[..i];
      assert forall k :: 0 <= k < |client.cards| ==> client.cards[k] in client.cards;
      assert forall k :: 0 <= k < |server.cards| ==> server.cards[k] in server.cards;
      PerformOnBoth(server, client, later[i]);
    }
    assert later[..|later|] == later;
  }
}
