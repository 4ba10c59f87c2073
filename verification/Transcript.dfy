/**
 The two routes to a transcript: the ledger fed with live events, and the ledger rebuilt from Pi's
 stored entries. They say the same thing, but for one deliberate exception.
 */
module Transcript {
  import opened Common
  import opened Session
  import opened EventFolder
  import opened StoredEntries

  // ---------------------------------------------------------------- what transcripts say

  function Meaningful(es: seq<Entry>): seq<Entry> {
    if es == [] then [] else (if es[0].Notice? then [] else [es[0]]) + Meaningful(es[1..])
  }

  function ResultText(r: Option<string>): string { if r.Some? then r.value else "" }

  predicate SameMeaningfulEntry(left: Entry, right: Entry) {
    match left
    case Message(_, _, role, text, thinking) =>
      right.Message? && role == right.role && text == right.text && thinking == right.thinking
    case Tool(_, name, _, status, result, _) =>
      right.Tool? && name == right.toolName && status == right.status && ResultText(result) == ResultText(right.result)
    case Model(provider, modelId) => right.Model? && provider == right.provider && modelId == right.modelId
    case Notice(_) => false
  }

  /** Entry by entry the same content, ids and notices aside. */
  predicate SameTranscript(a: seq<Entry>, b: seq<Entry>) {
    var left, right := Meaningful(a), Meaningful(b);
    |left| == |right| && forall k :: 0 <= k < |left| ==> SameMeaningfulEntry(left[k], right[k])
  }

  /** What one entry says, without ids, arguments and the pending confirmation. */
  datatype Said =
    | SaidMessage(role: Role, text: string, thinking: string)
    | SaidTool(name: string, status: ToolStatus, result: string)
    | SaidModel(provider: string, modelId: string)

  function SaidBy(e: Entry): Said
    requires !e.Notice?
  {
    match e
    case Message(_, _, role, text, thinking) => SaidMessage(role, text, thinking)
    case Tool(_, name, _, status, result, _) => SaidTool(name, status, ResultText(result))
    case Model(provider, modelId) => SaidModel(provider, modelId)
  }

  function SaidAll(es: seq<Entry>): seq<Said> {
    if es == [] then [] else (if es[0].Notice? then [] else [SaidBy(es[0])]) + SaidAll(es[1..])
  }

  lemma {:induction false} SaidOfMeaningful(es: seq<Entry>)
    ensures |Meaningful(es)| == |SaidAll(es)|
    ensures forall k :: 0 <= k < |Meaningful(es)| ==>
              !Meaningful(es)[k].Notice? && SaidAll(es)[k] == SaidBy(Meaningful(es)[k])
  {
    if es != [] { SaidOfMeaningful(es[1..]); }
  }

  lemma SameTranscriptSaysTheSame(a: seq<Entry>, b: seq<Entry>)
    ensures SameTranscript(a, b) <==> SaidAll(a) == SaidAll(b)
  {
    SaidOfMeaningful(a);
    SaidOfMeaningful(b);
    var left, right := Meaningful(a), Meaningful(b);
    if |left| == |right| {
      assert forall k :: 0 <= k < |left| ==>
                (SameMeaningfulEntry(left[k], right[k]) <==> SaidAll(a)[k] == SaidAll(b)[k]);
    }
  }

  lemma {:induction false} SaidAllConcat(a: seq<Entry>, b: seq<Entry>)
    ensures SaidAll(a + b) == SaidAll(a) + SaidAll(b)
  {
    if a == [] {
      assert a + b == b;
    } else {
      assert (a + b)[1..] == a[1..] + b;
      SaidAllConcat(a[1..], b);
    }
  }

  // ---------------------------------------------------------------- notices do not matter

  predicate NoNotices(es: seq<Entry>) { forall k :: 0 <= k < |es| ==> !es[k].Notice? }

  function ApplyEach(es: seq<Entry>, actions: seq<Action>): seq<Entry>
    decreases |actions|
  {
    if actions == [] then es else ApplyEach(ApplyEntries(es, actions[0]), actions[1..])
  }

  lemma {:induction false} ApplyEachConcat(es: seq<Entry>, a: seq<Action>, b: seq<Action>)
    ensures ApplyEach(es, a + b) == ApplyEach(ApplyEach(es, a), b)
    decreases |a|
  {
    if a == [] {
      assert a + b == b;
    } else {
      assert (a + b)[1..] == a[1..] + b;
      ApplyEachConcat(ApplyEntries(es, a[0]), a[1..], b);
    }
  }

  lemma {:induction false} MeaningfulConcat(a: seq<Entry>, b: seq<Entry>)
    ensures Meaningful(a + b) == Meaningful(a) + Meaningful(b)
  {
    if a == [] {
      assert a + b == b;
    } else {
      assert (a + b)[1..] == a[1..] + b;
      MeaningfulConcat(a[1..], b);
    }
  }

  lemma {:induction false} MeaningfulElements(es: seq<Entry>)
    ensures NoNotices(Meaningful(es)) && forall e :: e in Meaningful(es) ==> e in es
    ensures forall e :: e in es && !e.Notice? ==> e in Meaningful(es)
    ensures NoNotices(es) ==> Meaningful(es) == es
  {
    if es != [] { MeaningfulElements(es[1..]); }
  }

  lemma MeaningfulSplit(es: seq<Entry>, i: nat)
    requires i < |es| && !es[i].Notice?
    ensures Meaningful(es) == Meaningful(es[..i]) + [es[i]] + Meaningful(es[i+1..])
  {
    var tail := es[i..];
    assert tail[0] == es[i] && tail[1..] == es[i+1..];
    assert es == es[..i] + tail;
    MeaningfulConcat(es[..i], tail);
  }

  /** Where an entry ends up when notices are left out. */
  function Shift(es: seq<Entry>, i: nat): nat
    requires i <= |es|
  {
    |Meaningful(es[..i])|
  }

  /** Updating an entry that is not a notice, seen without the notices. */
  lemma MeaningfulUpdate(es: seq<Entry>, i: nat, e: Entry)
    requires i < |es| && !es[i].Notice? && !e.Notice?
    ensures Shift(es, i) < |Meaningful(es)| && Meaningful(es)[Shift(es, i)] == es[i]
    ensures Meaningful(es[i := e]) == Meaningful(es)[Shift(es, i) := e]
  {
    MeaningfulSplit(es, i);
    var es' := es[i := e];
    MeaningfulSplit(es', i);
    assert es'[..i] == es[..i] && es'[i+1..] == es[i+1..];
  }

  /** If nothing after position `i` satisfies `p`, nothing after its shifted position does. */
  lemma NoneAfter(es: seq<Entry>, i: nat, p: Entry -> bool)
    requires i < |es| && !es[i].Notice?
    requires forall k :: i < k < |es| ==> !p(es[k])
    ensures forall k :: Shift(es, i) < k < |Meaningful(es)| ==> !p(Meaningful(es)[k])
  {
    MeaningfulSplit(es, i);
    MeaningfulElements(es[i+1..]);
    forall k | Shift(es, i) < k < |Meaningful(es)| ensures !p(Meaningful(es)[k]) {
      var e := Meaningful(es)[k];
      assert e == Meaningful(es[i+1..])[k - Shift(es, i) - 1];
      assert e in es[i+1..];
    }
  }

  /** `Last` is determined by what it promises. */
  lemma LastIs(es: seq<Entry>, p: Entry -> bool, i: nat)
    requires i < |es| && p(es[i]) && forall k :: i < k < |es| ==> !p(es[k])
    ensures Last(es, p) == Some(i)
  {
  }

  lemma LastWithoutNotices(es: seq<Entry>, p: Entry -> bool)
    requires forall e: Entry :: e.Notice? ==> !p(e)
    ensures Last(Meaningful(es), p)
            == if Last(es, p).None? then None else Some(Shift(es, Last(es, p).value))
  {
    var at := Last(es, p);
    if at.Some? {
      MeaningfulSplit(es, at.value);
      NoneAfter(es, at.value, p);
      LastIs(Meaningful(es), p, Shift(es, at.value));
    } else {
      MeaningfulElements(es);
      assert forall k :: 0 <= k < |Meaningful(es)| ==> Meaningful(es)[k] in es;
    }
  }

  lemma MeaningfulSnoc(es: seq<Entry>, e: Entry)
    ensures Meaningful(es + [e]) == if e.Notice? then Meaningful(es) else Meaningful(es) + [e]
  {
    MeaningfulConcat(es, [e]);
    assert [e][1..] == [];
  }

  /** Applying an action and leaving notices out can be done in either order. */
  lemma ApplyWithoutNotices(es: seq<Entry>, a: Action)
    ensures Meaningful(ApplyEntries(es, a))
            == if a.NoticeAdded? then Meaningful(es) else ApplyEntries(Meaningful(es), a)
  {
    match a
    case MessageAdded(id, role, stable) => MeaningfulSnoc(es, Message(id, stable, role, "", ""));
    case NoticeAdded(text) => MeaningfulSnoc(es, Notice(text));
    case ModelInUse(provider, modelId) => MeaningfulSnoc(es, Model(provider, modelId));
    case TextAppended(id, text) =>
      var p := e => IsMessage(e, id);
      LastWithoutNotices(es, p);
      var at := Last(es, p);
      if at.Some? { MeaningfulUpdate(es, at.value, es[at.value].(text := es[at.value].text + text)); }
    case ThinkingAppended(id, text) =>
      var p := e => IsMessage(e, id);
      LastWithoutNotices(es, p);
      var at := Last(es, p);
      if at.Some? { MeaningfulUpdate(es, at.value, es[at.value].(thinking := es[at.value].thinking + text)); }
    case ToolChanged(id, _, _, _, _) =>
      var p := e => IsCard(e, id);
      LastWithoutNotices(es, p);
      var at := Last(es, p);
      if at.Some? { MeaningfulUpdate(es, at.value, ChangedCard(es[at.value], a)); }
      else { MeaningfulSnoc(es, NewCard(a)); }
    case ConfirmRequested(confirm) =>
      LastWithoutNotices(es, Active);
      var at := Last(es, Active);
      if at.Some? {
        MeaningfulUpdate(es, at.value, es[at.value].(status := Pending, confirm := Some(confirm)));
      }
    case _ =>
  }
}
