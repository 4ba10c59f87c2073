/** Folding Pi's stored session entries into view actions, and choosing the branch to fold. */
module StoredEntries {
  import opened Common
  import opened Session
  import opened EventFolder

  datatype Stored =
    | ModelChange(provider: Option<string>, modelId: Option<string>)
    | StoredMessage(id: Option<string>, message: Option<Body>)
    | OtherEntry

  /** `ToolResult` belongs to a tool card; `OtherBody` has a role that is not drawn. */
  datatype Body =
    | ChatBody(role: Role, parts: seq<Part>, stopped: bool, usage: Option<Usage>)
    | ToolResult(toolCallId: Option<string>, toolName: Option<string>, isError: bool, content: seq<Part>)
    | OtherBody

  datatype Totals = Totals(tokens: real, cost: real)

  function OrEmpty(s: Option<string>): string { if s.Some? then s.value else "" }

  predicate HasText(parts: seq<Part>) {
    exists i :: 0 <= i < |parts| && parts[i].TextPart? && parts[i].text != ""
  }

  /** A normally finished reply without text: its thinking is the answer. */
  predicate RecoversThinking(b: Body) {
    b.ChatBody? && b.role.Assistant? && b.stopped && !HasText(b.parts)
  }

  function PartAction(messageId: string, p: Part, recover: bool): seq<Action> {
    match p
    case TextPart(text) => [TextAppended(messageId, text)]
    case ThinkingPart(text) => [if recover then TextAppended(messageId, text) else ThinkingAppended(messageId, text)]
    case ToolCall(id, name, args) => [ToolChanged(id, OrEmpty(name), args, Pending, None)]
    case OtherPart => []
  }

  function PartActions(messageId: string, parts: seq<Part>, recover: bool): seq<Action> {
    if parts == [] then []
    else PartAction(messageId, parts[0], recover) + PartActions(messageId, parts[1..], recover)
  }

  function AddUsage(t: Totals, usage: Option<Usage>): Totals {
    if usage.None? then t else Totals(Plus(t.tokens, usage.value.totalTokens), Plus(t.cost, usage.value.cost))
  }

  /** The specification of one step of the fold. */
  function FoldEntry(t: Totals, e: Stored): (Totals, seq<Action>) {
    match e
    case ModelChange(provider, modelId) =>
      (t, if provider.Some? && modelId.Some? then [ModelInUse(provider.value, modelId.value)] else [])
    case OtherEntry => (t, [])
    case StoredMessage(id, None) => (t, [])
    case StoredMessage(id, Some(OtherBody)) => (t, [])
    case StoredMessage(id, Some(ToolResult(callId, name, isError, content))) =>
      (t, if callId.None? then []
          else [ToolChanged(callId.value, OrEmpty(name), None, if isError then Errored else Finished,
                            Some(ExtractText(content)))])
    case StoredMessage(id, Some(ChatBody(role, parts, stopped, usage))) =>
      if OrEmpty(id) == "" then (t, [])
      else
        var t' := AddUsage(t, usage);
        var drawn := [MessageAdded(id.value, role, true)]
                     + PartActions(id.value, parts, RecoversThinking(e.message.value));
        (t', if usage.Some? then drawn + [UsageChanged(t'.tokens, t'.cost)] else drawn)
  }

  function FoldAll(t: Totals, entries: seq<Stored>): (Totals, seq<Action>)
    decreases |entries|
  {
    if entries == [] then (t, [])
    else
      var (t1, first) := FoldEntry(t, entries[0]);
      var (t2, rest) := FoldAll(t1, entries[1..]);
      (t2, first + rest)
  }

  lemma {:induction false} FoldAllSnoc(t: Totals, entries: seq<Stored>, e: Stored)
    ensures var (t1, before) := FoldAll(t, entries);
            var (t2, last) := FoldEntry(t1, e);
            FoldAll(t, entries + [e]) == (t2, before + last)
    decreases |entries|
  {
    if entries == [] {
      var (t2, last) := FoldEntry(t, e);
      assert (entries + [e])[0] == e && (entries + [e])[1..] == [];
      assert last + [] == last && [] + last == last;
    } else {
      var (t1, first) := FoldEntry(t, entries[0]);
      assert (entries + [e])[1..] == entries[1..] + [e];
      FoldAllSnoc(t1, entries[1..], e);
      var (t2, rest) := FoldAll(t1, entries[1..]);
      var last := FoldEntry(t2, e).1;
      assert first + (rest + last) == (first + rest) + last;
    }
  }

  lemma {:induction false} PartActionsSnoc(messageId: string, parts: seq<Part>, p: Part, recover: bool)
    ensures PartActions(messageId, parts + [p], recover)
            == PartActions(messageId, parts, recover) + PartAction(messageId, p, recover)
  {
    if parts == [] {
      assert ([p])[1..] == [];
    } else {
      assert (parts + [p])[1..] == parts[1..] + [p];
      PartActionsSnoc(messageId, parts[1..], p, recover);
    }
  }

  /** One stored message: its parts in stored order. */
  method MessageActions(messageId: string, body: Body) returns (actions: seq<Action>)
    requires body.ChatBody?
    ensures actions == [MessageAdded(messageId, body.role, true)]
                       + PartActions(messageId, body.parts, RecoversThinking(body))
  {
    actions := [MessageAdded(messageId, body.role, true)];
    var recover := RecoversThinking(body);
    for k := 0 to |body.parts|
      invariant actions == [MessageAdded(messageId, body.role, true)] + PartActions(messageId, body.parts[..k], recover)
    {
      PartActionsSnoc(messageId, body.parts[..k], body.parts[k], recover);
      assert body.parts[..k+1] == body.parts[..k] + [body.parts[k]];
      match body.parts[k]
      case TextPart(text) => actions := actions + [TextAppended(messageId, text)];
      case ThinkingPart(text) =>
        actions := actions + [if recover then TextAppended(messageId, text) else ThinkingAppended(messageId, text)];
      case ToolCall(id, name, args) => actions := actions + [ToolChanged(id, OrEmpty(name), args, Pending, None)];
      case OtherPart =>
    }
    assert body.parts[..|body.parts|] == body.parts;
  }

  /** The loop over all stored entries, with its running totals. */
  method FoldSessionEntries(entries: seq<Stored>) returns (actions: seq<Action>)
    ensures actions == FoldAll(Totals(0.0, 0.0), entries).1
  {
    actions := [];
    var totalTokens, totalCost := 0.0, 0.0;
    for i := 0 to |entries|
      invariant FoldAll(Totals(0.0, 0.0), entries[..i]) == (Totals(totalTokens, totalCost), actions)
    {
      FoldAllSnoc(Totals(0.0, 0.0), entries[..i], entries[i]);
      assert entries[..i+1] == entries[..i] + [entries[i]];
      assert actions + [] == actions;
      match entries[i]
      case ModelChange(Some(provider), Some(modelId)) => actions := actions + [ModelInUse(provider, modelId)];
      case StoredMessage(_, Some(ToolResult(Some(callId), name, isError, content))) =>
        actions := actions + [ToolChanged(callId, OrEmpty(name), None, if isError then Errored else Finished,
                                          Some(ExtractText(content)))];
      case StoredMessage(Some(id), Some(ChatBody(role, parts, stopped, usage))) =>
        if id != "" {
          var added := MessageActions(id, entries[i].message.value);
          if usage.Some? {
            totalTokens := Plus(totalTokens, usage.value.totalTokens);
            totalCost := Plus(totalCost, usage.value.cost);
            added := added + [UsageChanged(totalTokens, totalCost)];
          }
          actions := actions + added;
        }
      case _ =>
    }
    assert entries[..|entries|] == entries;
  }
}
