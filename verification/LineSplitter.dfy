/** Splitting the child's output into lines, whatever the chunks it arrives in. */
module LineSplitter {
  import opened Common

  /** White space and line terminators, as sections 12.2 and 12.3 of ECMA-262 list them. */
  predicate IsSpace(c: char) {
    c in {' ', '\t', '\n', '\r', '\U{0B}', '\U{0C}', '\U{A0}', '\U{1680}', '\U{2028}', '\U{2029}', '\U{202F}',
          '\U{205F}',
          '\U{3000}', '\U{FEFF}'}
    || '\U{2000}' <= c <= '\U{200A}'
  }

  predicate Blank(line: string) { forall i :: 0 <= i < |line| ==> IsSpace(line[i]) }

  function NewlineFrom(s: string, i: nat): (r: Option<nat>)
    requires i <= |s|
    ensures r.Some? ==> i <= r.value < |s| && s[r.value] == '\n' && forall k :: i <= k < r.value ==> s[k] != '\n'
    ensures r.None? ==> forall k :: i <= k < |s| ==> s[k] != '\n'
    decreases |s| - i
  {
    if i == |s| then None else if s[i] == '\n' then Some(i) else NewlineFrom(s, i + 1)
  }

  /** The lines that are handled, and the unfinished rest. */
  datatype Split = Split(handled: seq<string>, rest: string)

  function Kept(line: string): seq<string> { if Blank(line) then [] else [line] }

  function SplitText(s: string): Split
    decreases |s|
  {
    var at := NewlineFrom(s, 0);
    if at.None? then Split([], s)
    else
      var later := SplitText(s[at.value + 1..]);
      Split(Kept(s[..at.value]) + later.handled, later.rest)
  }

  /** A text without a line end is all rest; one with a line end begins with a line. */
  lemma SplitLine(line: string, later: string)
    requires forall i :: 0 <= i < |line| ==> line[i] != '\n'
    ensures SplitText(line) == Split([], line)
    ensures SplitText(line + "\n" + later)
            == Split(Kept(line) + SplitText(later).handled, SplitText(later).rest)
  {
    var s := line + "\n" + later;
    assert s[|line|] == '\n' && forall k :: 0 <= k < |line| ==> s[k] == line[k];
    assert NewlineFrom(s, 0) == Some(|line|);
    assert s[..|line|] == line && s[|line| + 1..] == later;
  }

  /** The characters that matter: every line with its end, blank ones too, then the rest. */
  function AllLines(s: string): (lines: seq<string>)
    decreases |s|
  {
    var at := NewlineFrom(s, 0);
    if at.None? then [] else [s[..at.value]] + AllLines(s[at.value + 1..])
  }

  /** A text with a line end, taken apart at the first. */
  lemma FirstLine(s: string) returns (line: string, later: string)
    requires NewlineFrom(s, 0).Some?
    ensures s == line + "\n" + later && '\n' !in line && |later| < |s|
    ensures SplitText(s) == Split(Kept(line) + SplitText(later).handled, SplitText(later).rest)
    ensures AllLines(s) == [line] + AllLines(later)
  {
    var at := NewlineFrom(s, 0).value;
    line, later := s[..at], s[at + 1..];
  }

  lemma Regrouped(a: string, b: string, c: string, d: string)
    ensures (a + b + c) + d == a + b + (c + d)
  {
  }

  lemma RegroupedLines(a: seq<string>, b: seq<string>, c: seq<string>)
    ensures (a + b) + c == a + (b + c)
  {
  }

  /** Splitting what is left over together with what follows is splitting the whole. */
  lemma {:induction false} SplitInPieces(a: string, b: string)
    ensures SplitText(a + b)
            == Split(SplitText(a).handled + SplitText(SplitText(a).rest + b).handled,
                     SplitText(SplitText(a).rest + b).rest)
    decreases |a|
  {
    if NewlineFrom(a, 0).None? {
      assert [] + SplitText(a + b).handled == SplitText(a + b).handled;
    } else {
      var line, later := FirstLine(a);
      Regrouped(line, "\n", later, b);
      SplitLine(line, later + b);
      SplitInPieces(later, b);
      RegroupedLines(Kept(line), SplitText(later).handled, SplitText(SplitText(later).rest + b).handled);
    }
  }

  predicate ProperLine(line: string) { !Blank(line) && '\n' !in line }

  /** No handled line is blank or holds a line end; the rest holds none either. */
  lemma {:induction false} LinesAreLines(s: string)
    ensures forall line :: line in SplitText(s).handled ==> ProperLine(line)
    ensures '\n' !in SplitText(s).rest
    decreases |s|
  {
    if NewlineFrom(s, 0).Some? {
      var line, later := FirstLine(s);
      LinesAreLines(later);
    }
  }

  function Written(lines: seq<string>): string {
    if lines == [] then "" else lines[0] + "\n" + Written(lines[1..])
  }

  function WithoutBlank(lines: seq<string>): seq<string> {
    if lines == [] then [] else (if Blank(lines[0]) then [] else [lines[0]]) + WithoutBlank(lines[1..])
  }

  lemma WrittenFirst(line: string, lines: seq<string>)
    ensures Written([line] + lines) == line + "\n" + Written(lines)
    ensures WithoutBlank([line] + lines) == Kept(line) + WithoutBlank(lines)
  {
    assert ([line] + lines)[1..] == lines;
  }

  /** Nothing is lost or reordered: the lines and the rest are the text, and exactly the blank lines are skipped. */
  lemma {:induction false} NothingLost(s: string)
    ensures Written(AllLines(s)) + SplitText(s).rest == s
    ensures SplitText(s).handled == WithoutBlank(AllLines(s))
    decreases |s|
  {
    if NewlineFrom(s, 0).None? {
      assert "" + s == s;
    } else {
      var line, later := FirstLine(s);
      NothingLost(later);
      WrittenFirst(line, AllLines(later));
      Regrouped(line, "\n", Written(AllLines(later)), SplitText(later).rest);
    }
  }

  class Splitter {
    var buffer: string
    var handled: seq<string>

    constructor ()
      ensures buffer == "" && handled == []
    {
      buffer, handled := "", [];
    }

    method Feed(chunk: string)
      modifies this
      ensures handled == old(handled) + SplitText(old(buffer) + chunk).handled
      ensures buffer == SplitText(old(buffer) + chunk).rest
    {
      buffer := buffer + chunk;
      var index := NewlineFrom(buffer, 0);
      while index.Some?
        invariant index == NewlineFrom(buffer, 0)
        invariant handled + SplitText(buffer).handled == old(handled) + SplitText(old(buffer) + chunk).handled
        invariant SplitText(buffer).rest == SplitText(old(buffer) + chunk).rest
        decreases |buffer|
      {
        var line := buffer[..index.value];
        ghost var was := handled;
        buffer := buffer[index.value + 1..];
        if !Blank(line) { handled := handled + [line]; }
        assert handled == was + Kept(line);
        RegroupedLines(was, Kept(line), SplitText(buffer).handled);
        index := NewlineFrom(buffer, 0);
      }
    }
  }

  /** However the output is cut into chunks, the same lines are handled in the same order, and the same rest is kept. */
  method FeedAll(chunks: seq<string>) returns (handled: seq<string>, rest: string)
    ensures Split(handled, rest) == SplitText(Joined(chunks))
  {
    var splitter := new Splitter();
    for i := 0 to |chunks|
      invariant fresh(splitter)
      invariant Split(splitter.handled, splitter.buffer) == SplitText(Joined(chunks[..i]))
    {
      assert chunks[..i+1] == chunks[..i] + [chunks[i]];
      JoinedSnoc(chunks[..i], chunks[i]);
      SplitInPieces(Joined(chunks[..i]), chunks[i]);
      splitter.Feed(chunks[i]);
    }
    assert chunks[..|chunks|] == chunks;
    return splitter.handled, splitter.buffer;
  }
}
