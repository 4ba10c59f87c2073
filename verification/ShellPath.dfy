/** The block that puts the launcher on the PATH, kept between two markers in a shell profile. */
module ShellPath {
  import opened Common

  const START := "# >>> Cinba CLI >>>"
  const END := "# <<< Cinba CLI <<<"
  const BODY_START := "\ncase \":$PATH:\" in\n" + "  *\":$HOME/.local/bin:\"*) ;;\n"
  const BODY_END := "  *) export PATH=\"$HOME/.local/bin:$PATH\" ;;\n" + "esac\n"
  const BODY := BODY_START + BODY_END
  const BLOCK := START + BODY + END

  // ---------------------------------------------------------------- occurrences

  predicate At(text: string, pattern: string, i: nat) {
    i + |pattern| <= |text| && text[i..i + |pattern|] == pattern
  }

  function IndexOf(text: string, pattern: string, from: nat): (r: Option<nat>)
    ensures r.Some? ==>
              from <= r.value && At(text, pattern, r.value) && forall k :: from <= k < r.value ==> !At(text, pattern, k)
    ensures r.None? ==> forall k :: from <= k ==> !At(text, pattern, k)
    decreases |text| - from
  {
    if from > |text| then None
    else if At(text, pattern, from) then Some(from)
    else if from == |text| then None
    else IndexOf(text, pattern, from + 1)
  }

  ghost predicate Occurs(text: string, pattern: string) { exists i :: At(text, pattern, i) }

  ghost predicate OnlyAt(text: string, pattern: string, i: nat) {
    At(text, pattern, i) && forall k :: At(text, pattern, k) ==> k == i
  }

  ghost predicate NoMarkers(text: string) { !Occurs(text, START) && !Occurs(text, END) }

  /** A marker starts with a hash, has no other and no line end. */
  predicate Marker(m: string) {
    |m| == 19 && m[0] == '#' && forall k :: 0 < k < |m| ==> m[k] != '#' && m[k] != '\n'
  }

  lemma TheMarkers()
    ensures Marker(START) && Marker(END) && START[2] != END[2]
  {
  }

  lemma NoHashInBodyStart()
    ensures '#' !in BODY_START && |BODY_START| > 0 && BODY_START[0] == '\n'
  {
    assert '#' !in "\ncase \":$PATH:\" in\n";
    assert '#' !in "  *\":$HOME/.local/bin:\"*) ;;\n";
  }

  lemma NoHashInBodyEnd()
    ensures '#' !in BODY_END
  {
    assert '#' !in "  *) export PATH=\"$HOME/.local/bin:$PATH\" ;;\n";
    assert '#' !in "esac\n";
  }

  lemma NoHashInBody()
    ensures forall k :: 0 <= k < |BODY| ==> BODY[k] != '#'
    ensures |BODY| > 0 && BODY[0] == '\n'
  {
    NoHashInBodyStart();
    NoHashInBodyEnd();
    assert '#' !in BODY;
  }

  lemma AtMeans(text: string, m: string, i: nat, k: nat)
    requires At(text, m, i) && k < |m|
    ensures text[i + k] == m[k]
  {
    assert text[i..i+|m|][k] == m[k];
  }

  /** An occurrence does not cross a hash or a line end. */
  lemma NotAcross(x: string, y: string, m: string, i: nat)
    requires Marker(m) && At(x + y, m, i) && (y == "" || y[0] == '#' || y[0] == '\n')
    ensures At(x, m, i) || (i >= |x| && At(y, m, i - |x|))
  {
    var text := x + y;
    if i + |m| <= |x| {
      assert x[i..i+|m|] == text[i..i+|m|];
    } else if i >= |x| {
      assert y[i-|x|..i-|x|+|m|] == text[i..i+|m|];
    } else {
      AtMeans(text, m, i, |x| - i);
    }
  }

  lemma WithinConcat(x: string, y: string, m: string, i: nat)
    ensures At(x, m, i) ==> At(x + y, m, i)
    ensures At(y, m, i) ==> At(x + y, m, |x| + i)
  {
    if At(x, m, i) { assert (x + y)[i..i+|m|] == x[i..i+|m|]; }
    if At(y, m, i) { assert (x + y)[|x|+i..|x|+i+|m|] == y[i..i+|m|]; }
  }

  lemma InSecond(x: string, y: string, m: string, i: nat)
    requires At(x + y, m, i) && i >= |x|
    ensures At(y, m, i - |x|)
  {
    assert y[i-|x|..i-|x|+|m|] == (x + y)[i..i+|m|];
  }

  /** Two occurrences of one marker do not overlap. */
  lemma NoOverlap(text: string, m: string, i: nat, j: nat)
    requires Marker(m) && At(text, m, i) && At(text, m, j) && i < j
    ensures i + |m| <= j
  {
    AtMeans(text, m, j, 0);
    if j < i + |m| { AtMeans(text, m, i, j - i); }
  }

  // ---------------------------------------------------------------- the block in a profile

  datatype Range = NoBlock | Block(start: nat, end: nat) | Damaged

  function MarkerRange(content: string): Range {
    var start, end := IndexOf(content, START, 0), IndexOf(content, END, 0);
    if start.None? && end.None? then NoBlock
    else if start.None? || end.None? || end.value < start.value
            || IndexOf(content, START, start.value + |START|).Some? || IndexOf(content, END, end.value + |END|).Some?
    then Damaged
    else Block(start.value, end.value + |END|)
  }

  ghost predicate WellFormed(content: string, start: nat, end: nat) {
    && |END| <= end && start < end - |END|
    && OnlyAt(content, START, start) && OnlyAt(content, END, end - |END|)
  }

  lemma OnlyOnce(content: string, m: string, i: nat)
    requires Marker(m) && IndexOf(content, m, 0) == Some(i)
    ensures IndexOf(content, m, i + |m|).None? <==> OnlyAt(content, m, i)
  {
    if IndexOf(content, m, i + |m|).None? {
      forall k: nat | At(content, m, k) ensures k == i {
        if k > i { NoOverlap(content, m, i, k); }
      }
    }
  }

  /** The search finds no block, the one block, or damage: exactly as the markers occur. */
  lemma MarkerRangeIs(content: string)
    ensures MarkerRange(content).NoBlock? <==> NoMarkers(content)
    ensures forall s, e :: MarkerRange(content) == Block(s, e) <==> WellFormed(content, s, e)
  {
    TheMarkers();
    var start, end := IndexOf(content, START, 0), IndexOf(content, END, 0);
    if start.Some? && end.Some? {
      OnlyOnce(content, START, start.value);
      OnlyOnce(content, END, end.value);
      AtMeans(content, START, start.value, 2);
      AtMeans(content, END, end.value, 2);
    }
  }

  /** What lies before and after a well-formed block has no markers. */
  lemma NoMarkersAround(content: string, start: nat, end: nat)
    requires WellFormed(content, start, end)
    ensures end <= |content| && start + |START| <= end - |END|
    ensures NoMarkers(content[..start]) && NoMarkers(content[end..])
  {
    TheMarkers();
    var before, after, rest := content[..start], content[end..], content[start..];
    assert content == before + rest && content == content[..end] + after;
    AtMeans(content, END, end - |END|, 0);
    if end - |END| < start + |START| { AtMeans(content, START, start, end - |END| - start); }
    if i :| At(before, START, i) { WithinConcat(before, rest, START, i); }
    if i :| At(before, END, i) { WithinConcat(before, rest, END, i); }
    if i :| At(after, START, i) { WithinConcat(content[..end], after, START, i); }
    if i :| At(after, END, i) { WithinConcat(content[..end], after, END, i); }
  }

  lemma NoMarkerInBody(m: string, k: nat)
    requires m in {START, END}
    ensures !At(BODY, m, k)
  {
    TheMarkers();
    NoHashInBody();
    if At(BODY, m, k) { AtMeans(BODY, m, k, 0); }
  }

  lemma InTail(after: string, m: string, i: nat)
    requires !Occurs(after, m) && m in {START, END} && At(END + after, m, i)
    ensures i == 0 && m == END
  {
    TheMarkers();
    var tail := END + after;
    assert forall k :: 0 <= k < 19 ==> tail[k] == END[k];
    AtMeans(tail, m, i, 0);
    AtMeans(tail, m, i, 2);
    if i >= 19 { InSecond(END, after, m, i); }
  }

  lemma InBlock(before: string, after: string, m: string, i: nat)
    requires NoMarkers(before) && NoMarkers(after) && m in {START, END}
    requires At(before + (START + (BODY + (END + after))), m, i)
    ensures i == if m == START then |before| else |before| + |START| + |BODY|
  {
    TheMarkers();
    NoHashInBody();
    var tail := END + after;
    NotAcross(before, START + (BODY + tail), m, i);
    assert !At(before, m, i);
    var j := i - |before|;
    NotAcross(START, BODY + tail, m, j);
    if At(START, m, j) {
      assert j == 0 && START[0..19] == START;
    } else {
      var k := j - |START|;
      NotAcross(BODY, tail, m, k);
      NoMarkerInBody(m, k);
      InTail(after, m, k - |BODY|);
    }
  }

  /** A fresh block between texts without markers is a well-formed block. */
  lemma BlockInPlace(before: string, after: string)
    requires NoMarkers(before) && NoMarkers(after)
    ensures WellFormed(before + BLOCK + after, |before|, |before| + |BLOCK|)
  {
    TheMarkers();
    NoHashInBody();
    var tail := END + after;
    var text := before + (START + (BODY + tail));
    assert before + BLOCK + after == text;
    var at := |before| + |START| + |BODY|;
    assert text[|before|..|before|+19] == START && text[at..at+19] == END;
    forall i | At(text, START, i) ensures i == |before| { InBlock(before, after, START, i); }
    forall i | At(text, END, i) ensures i == at { InBlock(before, after, END, i); }
  }

  // ---------------------------------------------------------------- trailing blank text

  predicate LineEnds(s: string) {
    s == "" || (s[0] == '\n' && LineEnds(s[1..])) || (|s| > 1 && s[0] == '\r' && s[1] == '\n' && LineEnds(s[2..]))
  }

  /** Spaces and tabs, then line ends, to the end of the text. */
  predicate TrailingBlank(s: string) {
    if s != "" && s[0] in {' ', '\t'} then TrailingBlank(s[1..]) else LineEnds(s)
  }

  function TrimFrom(content: string, i: nat): string
    requires i <= |content|
    decreases |content| - i
  {
    if TrailingBlank(content[i..]) || i == |content| then content[..i] else TrimFrom(content, i + 1)
  }

  /** The text without its longest blank ending. */
  function Trimmed(content: string): string { TrimFrom(content, 0) }

  lemma {:induction false} TrimFromIs(content: string, i: nat)
    requires i <= |content| && forall k :: 0 <= k < i ==> !TrailingBlank(content[k..])
    ensures TrimFrom(content, i) <= content && TrailingBlank(content[|TrimFrom(content, i)|..])
    ensures forall k :: 0 <= k < |TrimFrom(content, i)| ==> !TrailingBlank(content[k..])
    decreases |content| - i
  {
    if !TrailingBlank(content[i..]) && i < |content| { TrimFromIs(content, i + 1); }
  }

  function AppendManagedBlock(content: string): string {
    var kept := Trimmed(content);
    if |kept| > 0 then kept + "\n\n" + BLOCK + "\n" else BLOCK + "\n"
  }

  /** Spaces and tabs and one line end, and nothing more. */
  predicate OneLineEnd(s: string) {
    if s != "" && s[0] in {' ', '\t'} then OneLineEnd(s[1..]) else s == "\n" || s == "\r\n"
  }

  function DropLineEndFrom(s: string, i: nat): string
    requires i <= |s|
    decreases |s| - i
  {
    if OneLineEnd(s[i..]) then s[..i] else if i == |s| then s else DropLineEndFrom(s, i + 1)
  }

  function DropFirstLineEnd(s: string): string {
    if s != "" && s[0] == '\n' then s[1..] else if |s| > 1 && s[0] == '\r' && s[1] == '\n' then s[2..] else s
  }

  // ---------------------------------------------------------------- configuring and removing

  datatype Edit = Written(content: string) | Untouched | Refused

  function Configured(content: string): Edit {
    match MarkerRange(content)
    case Damaged => Refused
    case NoBlock => Written(AppendManagedBlock(content))
    case Block(start, end) =>
      MarkerRangeIs(content); NoMarkersAround(content, start, end);
      Written(content[..start] + BLOCK + content[end..])
  }

  function Rejoined(before: string, after: string): string {
    before + (if before != "" && after != "" then "\n" else "") + after
  }

  function Removed(content: string): Edit {
    match MarkerRange(content)
    case Damaged => Refused
    case NoBlock => Untouched
    case Block(start, end) =>
      MarkerRangeIs(content); NoMarkersAround(content, start, end);
      Written(Rejoined(DropLineEndFrom(content[..start], 0), DropFirstLineEnd(content[end..])))
  }

  // ---------------------------------------------------------------- what editing promises

  lemma BlockRange(before: string, after: string)
    requires NoMarkers(before) && NoMarkers(after)
    ensures MarkerRange(before + BLOCK + after) == Block(|before|, |before| + |BLOCK|)
  {
    BlockInPlace(before, after);
    MarkerRangeIs(before + BLOCK + after);
  }

  lemma Around(before: string, block: string, after: string)
    ensures (before + block + after)[..|before|] == before
    ensures (before + block + after)[|before| + |block|..] == after
  {
  }

  lemma Between(before: string, block: string, after: string)
    ensures (before + block + after)[|before|..|before| + |block|] == block
  {
  }

  lemma RemovedAround(before: string, after: string)
    requires NoMarkers(before) && NoMarkers(after)
    ensures Removed(before + BLOCK + after) == Written(Rejoined(DropLineEndFrom(before, 0), DropFirstLineEnd(after)))
  {
    BlockRange(before, after);
    Around(before, BLOCK, after);
  }

  lemma NoMarkersInPrefix(text: string, n: nat)
    requires NoMarkers(text) && n <= |text|
    ensures NoMarkers(text[..n])
  {
    assert text == text[..n] + text[n..];
    if i :| At(text[..n], START, i) { WithinConcat(text[..n], text[n..], START, i); }
    if i :| At(text[..n], END, i) { WithinConcat(text[..n], text[n..], END, i); }
  }

  /** Texts joined at a line end, or only one of them there: no marker arises. */
  lemma NoMarkersJoined(x: string, y: string)
    requires NoMarkers(x) && NoMarkers(y) && (x == "" || y == "" || y[0] == '\n')
    ensures NoMarkers(x + y)
  {
    TheMarkers();
    if x == "" {
      assert x + y == y;
    } else {
      if i :| At(x + y, START, i) { NotAcross(x, y, START, i); }
      if i :| At(x + y, END, i) { NotAcross(x, y, END, i); }
    }
  }

  lemma ShortHasNoMarkers(text: string)
    requires |text| < 19
    ensures NoMarkers(text)
  {
  }

  /** The text around the block that configuring writes where there was none. */
  function NewBefore(content: string): string {
    if |Trimmed(content)| > 0 then Trimmed(content) + "\n\n" else ""
  }

  lemma AppendedAround(content: string)
    requires NoMarkers(content)
    ensures NoMarkers(NewBefore(content)) && NoMarkers("\n")
    ensures AppendManagedBlock(content) == NewBefore(content) + BLOCK + "\n"
  {
    TrimFromIs(content, 0);
    NoMarkersInPrefix(content, |Trimmed(content)|);
    assert Trimmed(content) == content[..|Trimmed(content)|];
    ShortHasNoMarkers("\n\n");
    ShortHasNoMarkers("\n");
    ShortHasNoMarkers("");
    NoMarkersJoined(Trimmed(content), "\n\n");
    assert "" + BLOCK == BLOCK;
  }

  /** Configuring a configured profile changes nothing. */
  lemma ConfiguringTwice(content: string)
    requires Configured(content).Written?
    ensures Configured(Configured(content).content) == Configured(content)
  {
    var before, after := NewBefore(content), "\n";
    MarkerRangeIs(content);
    if MarkerRange(content).NoBlock? {
      AppendedAround(content);
    } else {
      var Block(start, end) := MarkerRange(content);
      NoMarkersAround(content, start, end);
      before, after := content[..start], content[end..];
    }
    BlockRange(before, after);
    Around(before, BLOCK, after);
  }

  lemma {:induction false} NoLineEndBeforeTwo(text: string, i: nat)
    requires i <= |text|
    ensures !OneLineEnd((text + "\n\n")[i..])
    decreases |text| - i
  {
    var s := (text + "\n\n")[i..];
    if i < |text| {
      NoLineEndBeforeTwo(text, i + 1);
      assert s[1..] == (text + "\n\n")[i+1..];
    } else {
      assert s == "\n\n";
    }
  }

  lemma {:induction false} DropsFrom(s: string, i: nat, at: nat)
    requires i <= at <= |s| && OneLineEnd(s[at..]) && forall k :: i <= k < at ==> !OneLineEnd(s[k..])
    ensures DropLineEndFrom(s, i) == s[..at]
    decreases at - i
  {
    if i < at { DropsFrom(s, i + 1, at); }
  }

  lemma ConfiguredFresh(content: string)
    requires NoMarkers(content)
    ensures NoMarkers(NewBefore(content)) && NoMarkers("\n")
    ensures Configured(content) == Written(NewBefore(content) + BLOCK + "\n")
  {
    MarkerRangeIs(content);
    AppendedAround(content);
  }

  lemma LineEndAfterKept(kept: string)
    ensures DropLineEndFrom(kept + "\n\n", 0) == kept + "\n" && DropLineEndFrom("", 0) == ""
  {
    var before := kept + "\n\n";
    forall i | 0 <= i < |kept| + 1 ensures !OneLineEnd(before[i..]) { NoLineEndBeforeTwo(kept, i); }
    assert before[|kept| + 1..] == "\n";
    DropsFrom(before, 0, |kept| + 1);
    assert before[..|kept| + 1] == kept + "\n";
  }

  /** What is left when a fresh block is taken out of its surroundings. */
  lemma RejoinedAfterFresh(content: string)
    ensures Rejoined(DropLineEndFrom(NewBefore(content), 0), DropFirstLineEnd("\n"))
            == if Trimmed(content) == "" then "" else Trimmed(content) + "\n"
  {
    assert DropFirstLineEnd("\n") == "";
    LineEndAfterKept(Trimmed(content));
  }

  /**
   Configuring and then removing gives the text back, its blank ending made one line end; an empty
   text stays empty.
   */
  lemma ConfigureThenRemove(content: string)
    requires NoMarkers(content)
    ensures Configured(content).Written?
    ensures Removed(Configured(content).content)
            == Written(if Trimmed(content) == "" then "" else Trimmed(content) + "\n")
  {
    ConfiguredFresh(content);
    RemovedAround(NewBefore(content), "\n");
    RejoinedAfterFresh(content);
  }

  /** A new block between two texts. */
  lemma FreshBlockBetween(before: string, after: string)
    requires NoMarkers(before) && NoMarkers(after)
    ensures var refreshed := before + BLOCK + after;
            && |before| + |BLOCK| <= |refreshed|
            && MarkerRange(refreshed) == Block(|before|, |before| + |BLOCK|)
            && refreshed[..|before|] == before
            && refreshed[|before|..|before| + |BLOCK|] == BLOCK
            && refreshed[|before| + |BLOCK|..] == after
  {
    BlockRange(before, after);
    Around(before, BLOCK, after);
    Between(before, BLOCK, after);
  }

  lemma ConfiguredAtBlock(content: string)
    requires MarkerRange(content).Block?
    ensures var Block(start, end) := MarkerRange(content);
            && start <= end <= |content| && NoMarkers(content[..start]) && NoMarkers(content[end..])
            && Configured(content) == Written(content[..start] + BLOCK + content[end..])
  {
    var Block(start, end) := MarkerRange(content);
    MarkerRangeIs(content);
    NoMarkersAround(content, start, end);
  }

  /** Refreshing replaces the block and nothing else: the text before and after it is unchanged. */
  lemma RefreshKeepsOutside(content: string)
    requires MarkerRange(content).Block?
    ensures Configured(content).Written?
    ensures var Block(start, end) := MarkerRange(content);
            var refreshed := Configured(content).content;
            && end <= |content| && start + |BLOCK| <= |refreshed|
            && MarkerRange(refreshed) == Block(start, start + |BLOCK|)
            && refreshed[..start] == content[..start]
            && refreshed[start..start + |BLOCK|] == BLOCK
            && refreshed[start + |BLOCK|..] == content[end..]
  {
    var Block(start, end) := MarkerRange(content);
    ConfiguredAtBlock(content);
    FreshBlockBetween(content[..start], content[end..]);
  }

  /** So it makes no difference to what removing the block leaves. */
  lemma RefreshThenRemove(content: string)
    requires MarkerRange(content).Block?
    ensures Configured(content).Written? && Removed(Configured(content).content) == Removed(content)
  {
    var Block(start, end) := MarkerRange(content);
    MarkerRangeIs(content);
    NoMarkersAround(content, start, end);
    var before, after := content[..start], content[end..];
    RemovedAround(before, after);
  }

  lemma {:induction false} DropLineEndIsPrefix(s: string, i: nat)
    requires i <= |s|
    ensures DropLineEndFrom(s, i) <= s
    decreases |s| - i
  {
    if !OneLineEnd(s[i..]) && i < |s| { DropLineEndIsPrefix(s, i + 1); }
  }

  lemma NoMarkersInSuffix(text: string, n: nat)
    requires NoMarkers(text) && n <= |text|
    ensures NoMarkers(text[n..])
  {
    assert text == text[..n] + text[n..];
    if i :| At(text[n..], START, i) { WithinConcat(text[..n], text[n..], START, i); }
    if i :| At(text[n..], END, i) { WithinConcat(text[..n], text[n..], END, i); }
  }

  lemma NotAfterNewline(x: string, y: string, m: string, i: nat)
    requires Marker(m) && At(x + y, m, i) && x != "" && x[|x|-1] == '\n'
    ensures At(x, m, i) || (i >= |x| && At(y, m, i - |x|))
  {
    if i + |m| <= |x| {
      assert x[i..i+|m|] == (x + y)[i..i+|m|];
    } else if i >= |x| {
      InSecond(x, y, m, i);
    } else {
      AtMeans(x + y, m, i, |x| - 1 - i);
    }
  }

  lemma NewlineThen(x: string, y: string)
    requires NoMarkers(x) && NoMarkers(y) && x != "" && x[|x|-1] == '\n'
    ensures NoMarkers(x + y)
  {
    TheMarkers();
    if i :| At(x + y, START, i) { NotAfterNewline(x, y, START, i); }
    if i :| At(x + y, END, i) { NotAfterNewline(x, y, END, i); }
  }

  /** Cutting off blank endings and joining two texts without markers makes no marker. */
  lemma NoMarkersRejoined(a: string, b: string)
    requires NoMarkers(a) && NoMarkers(b)
    ensures NoMarkers(Rejoined(DropLineEndFrom(a, 0), DropFirstLineEnd(b)))
  {
    var before, after := DropLineEndFrom(a, 0), DropFirstLineEnd(b);
    DropLineEndIsPrefix(a, 0);
    NoMarkersInPrefix(a, |before|);
    assert before == a[..|before|];
    NoMarkersInSuffix(b, |b| - |after|);
    assert after == b[|b| - |after|..];
    ShortHasNoMarkers("\n");
    if before != "" && after != "" {
      NoMarkersJoined(before, "\n");
      NewlineThen(before + "\n", after);
    } else {
      NoMarkersJoined(before, after);
      assert before + "" + after == before + after;
    }
  }

  /** After removing, no marker is left, and removing again does nothing. */
  lemma RemovedForGood(content: string)
    requires Removed(content).Written?
    ensures NoMarkers(Removed(content).content) && Removed(Removed(content).content) == Untouched
  {
    var Block(start, end) := MarkerRange(content);
    MarkerRangeIs(content);
    NoMarkersAround(content, start, end);
    NoMarkersRejoined(content[..start], content[end..]);
    MarkerRangeIs(Removed(content).content);
  }

  // ---------------------------------------------------------------- the profile file

  datatype Shell = Bash | Zsh | OtherShell
  datatype Configuration = AlreadyAvailable | ProfileUpdated | Manual | ConfigurationFailed

  class Profile {
    const isLink: bool
    var content: Option<string>
    /** Writes so far that failed. */
    var faults: nat

    /** A missing profile reads as an empty one. */
    function Text(): string
      reads this
    {
      if content.Some? then content.value else ""
    }

    /** Temp file and rename: all or nothing. */
    method Write(text: string) returns (written: bool)
      modifies this
      ensures content == if written then Some(text) else old(content)
      ensures faults == if written then old(faults) else old(faults) + 1
    {
      written := *;
      if written { content := Some(text); } else { faults := faults + 1; }
    }

    method Configure(onPath: bool, shell: Shell) returns (r: Configuration)
      modifies this
      ensures onPath ==> r.AlreadyAvailable?
      ensures !onPath && (shell.OtherShell? || isLink) ==> r.Manual?
      ensures r.ProfileUpdated? ==> Configured(old(Text())).Written? && content == Some(Configured(old(Text())).content)
      ensures !r.ProfileUpdated? ==> content == old(content)
      ensures Configured(old(Text())).Refused? ==> !r.ProfileUpdated?
      ensures !onPath && !shell.OtherShell? && !isLink && Configured(old(Text())).Written? && faults == old(faults) ==>
                r.ProfileUpdated?
    {
      if onPath { return AlreadyAvailable; }
      if shell.OtherShell? || isLink { return Manual; }
      var edit := Configured(Text());
      if !edit.Written? { return ConfigurationFailed; }
      var written := Write(edit.content);
      r := if written then ProfileUpdated else ConfigurationFailed;
    }

    /** `None` is an error. */
    method RemoveBlock() returns (removed: Option<bool>)
      modifies this
      ensures removed == Some(true) ==> Removed(old(Text())).Written? && content == Some(Removed(old(Text())).content)
      ensures removed != Some(true) ==> content == old(content)
      ensures removed == Some(false) <==> !isLink && Removed(old(Text())).Untouched?
      ensures !isLink && Removed(old(Text())).Written? && faults == old(faults) ==> removed == Some(true)
    {
      if isLink { return None; }
      match Removed(Text())
      case Refused => removed := None;
      case Untouched => removed := Some(false);
      case Written(text) =>
        var written := Write(text);
        removed := if written then Some(true) else None;
    }
  }
}
