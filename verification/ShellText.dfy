/** What configuring and removing the managed block leave of the user's own text. */
module ShellText {
  import opened Common
  import opened ShellPath

  predicate Blank(s: string) { forall k :: 0 <= k < |s| ==> s[k] in {' ', '\t', '\r', '\n'} }

  lemma {:induction false} LineEndsAreBlank(s: string)
    requires LineEnds(s)
    ensures Blank(s)
    decreases |s|
  {
    if s != "" && s[0] == '\n' && LineEnds(s[1..]) {
      LineEndsAreBlank(s[1..]);
      assert forall k :: 0 < k < |s| ==> s[k] == s[1..][k-1];
    } else if s != "" {
      LineEndsAreBlank(s[2..]);
      assert forall k :: 1 < k < |s| ==> s[k] == s[2..][k-2];
    }
  }

  lemma {:induction false} TrailingBlankIsBlank(s: string)
    requires TrailingBlank(s)
    ensures Blank(s)
  {
    if s != "" && s[0] in {' ', '\t'} {
      TrailingBlankIsBlank(s[1..]);
      assert forall k :: 0 < k < |s| ==> s[k] == s[1..][k-1];
    } else {
      LineEndsAreBlank(s);
    }
  }

  /** A line end, with nothing before it but spaces and perhaps its carriage return. */
  predicate SpacedLineEnd(s: string) {
    && s != "" && s[|s|-1] == '\n'
    && forall k :: 0 <= k < |s| - 1 ==> s[k] in {' ', '\t'} || (k == |s| - 2 && s[k] == '\r')
  }

  /** The ending that a removal cuts off is just that. */
  lemma {:induction false} OneLineEndIs(s: string)
    ensures OneLineEnd(s) <==> SpacedLineEnd(s)
  {
    if s != "" && s[0] in {' ', '\t'} {
      var rest := s[1..];
      OneLineEndIs(rest);
      assert forall k :: 0 <= k < |rest| ==> rest[k] == s[k+1];
      assert forall k :: 0 < k < |s| ==> s[k] == rest[k-1];
    } else if SpacedLineEnd(s) {
      assert |s| <= 2;
      assert s == if |s| == 1 then "\n" else "\r\n";
    }
  }

  /** A first configuration puts the block behind the user's text, of which it only drops a blank ending. */
  lemma ConfiguringKeepsTheText(content: string) returns (kept: string)
    requires NoMarkers(content)
    ensures kept <= content && Blank(content[|kept|..])
    ensures Configured(content) == Written((if kept == "" then "" else kept + "\n\n") + BLOCK + "\n")
  {
    kept := Trimmed(content);
    ConfiguredFresh(content);
    TrimFromIs(content, 0);
    TrailingBlankIsBlank(content[|kept|..]);
  }

  lemma {:induction false} DropLineEndIs(s: string, i: nat) returns (at: nat)
    requires i <= |s| && forall k :: 0 <= k < i ==> !OneLineEnd(s[k..])
    ensures at <= |s| && DropLineEndFrom(s, i) == s[..at]
    ensures if at == |s| then forall k :: 0 <= k < |s| ==> !OneLineEnd(s[k..]) else OneLineEnd(s[at..])
    decreases |s| - i
  {
    if OneLineEnd(s[i..]) { at := i; }
    else if i == |s| { at := i; }
    else { at := DropLineEndIs(s, i + 1); }
  }

  /** The texts are the same but for a line end, with the spaces before it, that the first one had more. */
  predicate CutAtLineEnd(s: string, kept: string) {
    kept <= s && (kept == s || SpacedLineEnd(s[|kept|..]))
  }

  lemma DropsOneLineEnd(s: string)
    ensures CutAtLineEnd(s, DropLineEndFrom(s, 0))
  {
    var at := DropLineEndIs(s, 0);
    OneLineEndIs(s[at..]);
  }

  /** The text is the other one, or a line end and then the other one. */
  predicate CutBehindLineEnd(s: string, kept: string) { s == kept || s == "\n" + kept || s == "\r\n" + kept }

  lemma DropsFirstLineEnd(s: string)
    ensures CutBehindLineEnd(s, DropFirstLineEnd(s))
  {
    assert s != "" ==> s == [s[0]] + s[1..];
    assert |s| > 1 ==> s == [s[0], s[1]] + s[2..];
  }

  lemma RejoinedIs(x: string, y: string)
    ensures Rejoined(x, y) == if x == "" || y == "" then x + y else x + "\n" + y
  {
    assert x + "" + y == x + y;
  }

  lemma RemovedAtBlock(content: string)
    requires MarkerRange(content).Block?
    ensures var Block(start, end) := MarkerRange(content);
            && start <= end <= |content|
            && Removed(content)
               == Written(Rejoined(DropLineEndFrom(content[..start], 0), DropFirstLineEnd(content[end..])))
  {
    var Block(start, end) := MarkerRange(content);
    MarkerRangeIs(content);
    NoMarkersAround(content, start, end);
  }

  /**
   Removing the block keeps the user's text before and after it. What goes with the block is at most
   one line end on each side, the one before it with the spaces in front; what is kept on both sides
   stays on two lines.
   */
  lemma RemovingKeepsTheText(content: string) returns (before: string, after: string)
    requires MarkerRange(content).Block?
    ensures var Block(start, end) := MarkerRange(content);
            && start <= end <= |content| && CutAtLineEnd(content[..start], before)
            && CutBehindLineEnd(content[end..], after)
    ensures Removed(content) == Written(Rejoined(before, after))
    ensures Rejoined(before, after) == if before == "" || after == "" then before + after else before + "\n" + after
  {
    var Block(start, end) := MarkerRange(content);
    RemovedAtBlock(content);
    before, after := DropLineEndFrom(content[..start], 0), DropFirstLineEnd(content[end..]);
    DropsOneLineEnd(content[..start]);
    DropsFirstLineEnd(content[end..]);
    RejoinedIs(before, after);
  }

  lemma EndsAfter(x: string, k: nat)
    requires x != "" && x[|x|-1] !in {' ', '\t', '\r'} && k <= |x|
    ensures OneLineEnd((x + "\n")[k..]) <==> k == |x|
  {
    OneLineEndIs((x + "\n")[k..]);
    if k == |x| {
      assert (x + "\n")[k..] == "\n";
    } else {
      assert (x + "\n")[k..] == x[k..] + "\n";
      var s := x[k..] + "\n";
      assert |s| > 1 && s[|s|-2] == x[|x|-1];
    }
  }

  lemma Reassociated(x: string, n: string, block: string, y: string)
    ensures x + n + block + n + y == (x + n) + block + (n + y)
  {
  }

  lemma LineEndCutOff(x: string)
    requires x != "" && x[|x|-1] !in {' ', '\t', '\r'}
    ensures DropLineEndFrom(x + "\n", 0) == x
  {
    forall k | 0 <= k < |x| ensures !OneLineEnd((x + "\n")[k..]) { EndsAfter(x, k); }
    EndsAfter(x, |x|);
    DropsFrom(x + "\n", 0, |x|);
    assert (x + "\n")[..|x|] == x;
  }

  /** A block on lines of its own between two texts leaves exactly these two texts. */
  lemma RemovedFromBetween(x: string, y: string)
    requires NoMarkers(x) && NoMarkers(y) && x != "" && y != "" && x[|x|-1] !in {' ', '\t', '\r'}
    ensures Removed(x + "\n" + BLOCK + "\n" + y) == Written(x + "\n" + y)
  {
    ShortHasNoMarkers("\n");
    NoMarkersJoined(x, "\n");
    NewlineThen("\n", y);
    RemovedAround(x + "\n", "\n" + y);
    Reassociated(x, "\n", BLOCK, y);
    LineEndCutOff(x);
    assert ("\n" + y)[1..] == y;
    RejoinedIs(x, y);
  }
}
