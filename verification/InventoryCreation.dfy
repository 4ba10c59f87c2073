/** Making an inventory: it is sorted, without repeats, and exact for the tree it was made from. */
module InventoryCreation {
  import opened Common
  import opened Inventory

  // ---------------------------------------------------------------- the order of paths

  function Text(path: Path): string {
    if path == [] then "" else if |path| == 1 then path[0] else path[0] + "/" + Text(path[1..])
  }

  predicate SafePath(path: Path) { path != [] && forall i :: 0 <= i < |path| ==> SafeName(path[i]) }

  lemma SameFirstName(p: Path, q: Path)
    requires SafePath(p) && SafePath(q) && Text(p) == Text(q)
    ensures p[0] == q[0]
  {
    var a, b := p[0], q[0];
    assert Text(p)[..|a|] == a && Text(q)[..|b|] == b;
    assert |p| > 1 ==> Text(p)[|a|] == '/';
    assert |q| > 1 ==> Text(q)[|b|] == '/';
  }

  lemma {:induction false} TextInjective(p: Path, q: Path)
    requires SafePath(p) && SafePath(q) && Text(p) == Text(q)
    ensures p == q
    decreases |p|
  {
    SameFirstName(p, q);
    if |p| > 1 && |q| > 1 {
      assert Text(p)[|p[0]| + 1..] == Text(p[1..]) && Text(q)[|q[0]| + 1..] == Text(q[1..]);
      TextInjective(p[1..], q[1..]);
      assert p == [p[0]] + p[1..] && q == [q[0]] + q[1..];
    } else {
      assert |Text(p)| > |p[0]| <==> |p| > 1;
      assert |Text(q)| > |q[0]| <==> |q| > 1;
    }
  }

  /** Text comparison, character by character. */
  predicate Less(a: string, b: string) {
    b != "" && (a == "" || a[0] < b[0] || (a[0] == b[0] && Less(a[1..], b[1..])))
  }

  lemma {:induction false} LessTransitive(a: string, b: string, c: string)
    requires Less(a, b) && Less(b, c)
    ensures Less(a, c)
  {
    if a != "" && a[0] == b[0] == c[0] { LessTransitive(a[1..], b[1..], c[1..]); }
  }

  lemma {:induction false} LessIrreflexive(a: string)
    ensures !Less(a, a)
  {
    if a != "" { LessIrreflexive(a[1..]); }
  }

  lemma {:induction false} LessTotal(a: string, b: string)
    ensures a == b || Less(a, b) || Less(b, a)
    ensures !(Less(a, b) && Less(b, a)) && !Less(a, a)
  {
    if a != "" && b != "" && a[0] == b[0] {
      LessTotal(a[1..], b[1..]);
      assert a == [a[0]] + a[1..] && b == [b[0]] + b[1..];
    }
    if a != "" { LessIrreflexive(a); }
  }

  predicate Before(p: Path, q: Path) { Less(Text(p), Text(q)) }

  predicate Ascending(leaves: seq<Leaf>) {
    forall i, j :: 0 <= i < j < |leaves| ==> Before(leaves[i].path, leaves[j].path)
  }

  function Inserted(leaf: Leaf, sorted: seq<Leaf>): seq<Leaf> {
    if sorted == [] || !Before(sorted[0].path, leaf.path) then [leaf] + sorted
    else [sorted[0]] + Inserted(leaf, sorted[1..])
  }

  function Sorted(leaves: seq<Leaf>): seq<Leaf> {
    if leaves == [] then [] else Inserted(leaves[0], Sorted(leaves[1..]))
  }

  lemma {:induction false} InsertedIs(leaf: Leaf, sorted: seq<Leaf>)
    requires Ascending(sorted) && SafePath(leaf.path)
    requires forall l :: l in sorted ==> SafePath(l.path) && l.path != leaf.path
    ensures Ascending(Inserted(leaf, sorted))
    ensures forall l :: l in Inserted(leaf, sorted) <==> l == leaf || l in sorted
  {
    if sorted != [] {
      var first := sorted[0];
      assert first in sorted;
      if Before(first.path, leaf.path) {
        InsertedIs(leaf, sorted[1..]);
        var rest, all := Inserted(leaf, sorted[1..]), Inserted(leaf, sorted);
        assert all == [first] + rest;
        forall j | 1 <= j < |all| ensures Before(first.path, all[j].path) {
          assert all[j] == rest[j - 1] && rest[j - 1] in rest;
          if all[j] != leaf {
            var k :| 0 <= k < |sorted[1..]| && sorted[1..][k] == all[j];
            assert sorted[k + 1] == all[j];
          }
        }
      } else {
        LessTotal(Text(first.path), Text(leaf.path));
        if Text(first.path) == Text(leaf.path) { TextInjective(first.path, leaf.path); }
        forall j | 1 <= j < |sorted| ensures Before(leaf.path, sorted[j].path) {
          LessTransitive(Text(leaf.path), Text(first.path), Text(sorted[j].path));
        }
      }
    }
  }

  predicate NoPathTwice(leaves: seq<Leaf>) {
    forall i, j :: 0 <= i < j < |leaves| ==> leaves[i].path != leaves[j].path
  }

  lemma {:induction false} SortedIs(leaves: seq<Leaf>)
    requires NoPathTwice(leaves) && forall l :: l in leaves ==> SafePath(l.path)
    ensures Ascending(Sorted(leaves))
    ensures forall l :: l in Sorted(leaves) <==> l in leaves
  {
    if leaves != [] {
      SortedIs(leaves[1..]);
      forall l | l in leaves[1..] ensures l.path != leaves[0].path {
        var k :| 0 <= k < |leaves[1..]| && leaves[1..][k] == l;
        assert leaves[k + 1] == l;
      }
      InsertedIs(leaves[0], Sorted(leaves[1..]));
    }
  }

  // ---------------------------------------------------------------- the walk has no repeats

  lemma {:induction false} LeavesSafe(children: seq<Child>, prefix: Path, leaf: Leaf)
    requires WellFormed(children) && leaf in Leaves(children, prefix)
    requires prefix == [] || SafePath(prefix)
    ensures SafePath(leaf.path)
    decreases children
  {
    var path := prefix + [children[0].name];
    if leaf in Leaves(children[1..], prefix) {
      LeavesSafe(children[1..], prefix, leaf);
    } else if children[0].node.Directory? {
      LeavesSafe(children[0].node.children, path, leaf);
    }
  }

  /** The first name below the prefix tells the first child's leaves from the others'. */
  lemma FirstName(children: seq<Child>, prefix: Path, a: Leaf, b: Leaf)
    requires children != [] && WellFormed(children) && b in Leaves(children[1..], prefix)
    requires var path := prefix + [children[0].name];
             a.path == path || (children[0].node.Directory? && a in Leaves(children[0].node.children, path))
    ensures a.path != b.path
  {
    var path := prefix + [children[0].name];
    if a.path != path { LeavesAreThere(children[0].node.children, path, a); }
    assert path <= a.path && a.path[|prefix|] == children[0].name;
    LeavesAreThere(children[1..], prefix, b);
    LookupFindsName(children[1..], b.path[|prefix|..]);
    assert b.path[|prefix|] == b.path[|prefix|..][0];
  }

  lemma {:induction false} LeavesUnique(children: seq<Child>, prefix: Path)
    requires WellFormed(children)
    ensures NoPathTwice(Leaves(children, prefix))
    decreases children
  {
    if children != [] {
      var head, path, tail := children[0], prefix + [children[0].name], Leaves(children[1..], prefix);
      var first := Leaves(children, prefix)[..|Leaves(children, prefix)| - |tail|];
      assert Leaves(children, prefix) == first + tail;
      LeavesUnique(children[1..], prefix);
      if head.node.Directory? {
        LeavesUnique(head.node.children, path);
        assert first == Leaves(head.node.children, path);
      }
      forall i, j | 0 <= i < |first| && 0 <= j < |tail| ensures first[i].path != tail[j].path {
        FirstName(children, prefix, first[i], tail[j]);
      }
    }
  }

  // ---------------------------------------------------------------- making the inventory

  predicate PlainText(s: string) { '\\' !in s }

  /** A normalized relative POSIX path. */
  predicate NormalPath(path: Path) {
    SafePath(path) && forall i :: 0 <= i < |path| ==> PlainText(path[i]) && path[i] != "." && path[i] != ".."
  }

  predicate NormalTarget(target: Target) {
    !target.absolute && forall i :: 0 <= i < |target.parts| ==> PlainText(target.parts[i]) && '\0' !in target.parts[i]
  }

  /** A file or link that an inventory can hold. */
  predicate Describable(root: Path, children: seq<Child>, p: Path) {
    && NormalPath(p)
    && match Lookup(children, p)
       case Some(Link(target, dangling)) => StaysInside(root, p, target) && !dangling && NormalTarget(target)
       case _ => true
  }

  function EntryFor(children: seq<Child>, leaf: Leaf, digest: Digest, windows: bool): Entry {
    match Lookup(children, leaf.path)
    case Some(File(body, executable)) => FileEntry(leaf.path, |body|, digest(body), !windows && executable)
    case Some(Link(target, _)) => LinkEntry(leaf.path, target)
    case _ => FileEntry(leaf.path, 0, "", false)
  }

  predicate AscendingEntries(files: seq<Entry>) {
    forall i, j :: 0 <= i < j < |files| ==> Before(files[i].path, files[j].path)
  }

  /** Every file and link of the tree can be described, there is one, and nothing else is in it. */
  ghost predicate Creatable(root: Path, children: seq<Child>, ownName: string) {
    && (forall p :: KindOf(Lookup(children, p)) != Some(SpecialKind))
    && (exists p :: Counts(children, ownName, p))
    && (forall p :: Counts(children, ownName, p) ==> Describable(root, children, p))
  }

  function Others(leaves: seq<Leaf>, ownName: string): seq<Leaf> {
    if leaves == [] then []
    else if leaves[0].path == [ownName] then Others(leaves[1..], ownName)
    else [leaves[0]] + Others(leaves[1..], ownName)
  }

  /** The leaves an inventory lists. */
  function Listing(children: seq<Child>, ownName: string): seq<Leaf> {
    Sorted(Others(Leaves(children, []), ownName))
  }

  lemma {:induction false} OthersAre(leaves: seq<Leaf>, ownName: string)
    requires NoPathTwice(leaves)
    ensures NoPathTwice(Others(leaves, ownName))
    ensures forall l :: l in Others(leaves, ownName) <==> l in leaves && l.path != [ownName]
  {
    if leaves != [] {
      OthersAre(leaves[1..], ownName);
      var rest := Others(leaves[1..], ownName);
      forall i | 0 <= i < |rest| ensures rest[i].path != leaves[0].path {
        assert rest[i] in leaves[1..];
        var k :| 0 <= k < |leaves[1..]| && leaves[1..][k] == rest[i];
        assert leaves[k + 1] == rest[i];
      }
    }
  }

  /** The listing is in order, and lists exactly what counts. */
  lemma ListingIs(children: seq<Child>, ownName: string)
    requires WellFormed(children)
    ensures Ascending(Listing(children, ownName))
    ensures forall l :: l in Listing(children, ownName) <==>
              KindOf(Lookup(children, l.path)) == Some(l.kind) && l.path != [ownName]
    ensures forall l :: l in Listing(children, ownName) ==> SafePath(l.path)
  {
    var leaves := Leaves(children, []);
    LeavesUnique(children, []);
    OthersAre(leaves, ownName);
    forall l | l in leaves ensures SafePath(l.path) { LeavesSafe(children, [], l); }
    SortedIs(Others(leaves, ownName));
    forall l ensures l in leaves <==> KindOf(Lookup(children, l.path)) == Some(l.kind) { LeavesAre(children, l); }
  }

  lemma CountedIsListed(children: seq<Child>, ownName: string, p: Path)
    requires WellFormed(children) && Counts(children, ownName, p)
    ensures Leaf(p, KindOf(Lookup(children, p)).value) in Listing(children, ownName)
  {
    ListingIs(children, ownName);
  }

  lemma ListedCounts(children: seq<Child>, ownName: string, k: nat)
    requires WellFormed(children) && k < |Listing(children, ownName)|
    ensures Counts(children, ownName, Listing(children, ownName)[k].path)
  {
    ListingIs(children, ownName);
    assert Listing(children, ownName)[k] in Listing(children, ownName);
  }

  lemma NothingCounts(children: seq<Child>, ownName: string)
    requires WellFormed(children) && Listing(children, ownName) == []
    ensures forall p :: !Counts(children, ownName, p)
  {
    forall p ensures !Counts(children, ownName, p) {
      if Counts(children, ownName, p) { CountedIsListed(children, ownName, p); }
    }
  }

  /** Windows has no executable bit to record. */
  predicate NoneExecutable(files: seq<Entry>) {
    forall k :: 0 <= k < |files| && files[k].FileEntry? ==> !files[k].executable
  }

  lemma CreatedIsExact(root: Path, children: seq<Child>, ownName: string, digest: Digest, windows: bool,
                       listing: seq<Leaf>, files: seq<Entry>)
    requires WellFormed(children) && listing == Listing(children, ownName) && |files| == |listing|
    requires forall p :: KindOf(Lookup(children, p)) != Some(SpecialKind)
    requires forall k :: 0 <= k < |files| ==> files[k] == EntryFor(children, listing[k], digest, windows)
    requires forall k :: 0 <= k < |files| ==> Describable(root, children, listing[k].path)
    ensures AscendingEntries(files) && Exact(root, children, files, ownName, digest, !windows)
    ensures forall p :: Counts(children, ownName, p) ==> Describable(root, children, p)
    ensures windows ==> NoneExecutable(files)
  {
    ListingIs(children, ownName);
    forall k | 0 <= k < |files|
      ensures files[k].path == listing[k].path && Agrees(root, children, digest, !windows, files[k])
    {
      assert listing[k] in listing;
    }
    forall p ensures Counts(children, ownName, p) <==> Listed(files, p) {
      if Counts(children, ownName, p) {
        var leaf := Leaf(p, KindOf(Lookup(children, p)).value);
        assert leaf in listing;
        var k :| 0 <= k < |listing| && listing[k] == leaf;
        assert files[k].path == p;
      }
      if Listed(files, p) {
        var k :| 0 <= k < |files| && files[k].path == p;
        assert listing[k] in listing;
      }
    }
    forall p | Counts(children, ownName, p) ensures Describable(root, children, p) {
      assert Listed(files, p);
    }
  }

  /** An entry for every leaf, unless one cannot be described. */
  method DescribeAll(root: Path, children: seq<Child>, listing: seq<Leaf>, digest: Digest, windows: bool)
    returns (files: Option<seq<Entry>>)
    ensures files.Some? <==> forall k :: 0 <= k < |listing| ==> Describable(root, children, listing[k].path)
    ensures files.Some? ==>
              |files.value| == |listing|
              && forall k :: 0 <= k < |listing| ==> files.value[k] == EntryFor(children, listing[k], digest, windows)
  {
    var described: seq<Entry> := [];
    for i := 0 to |listing|
      invariant |described| == i
      invariant forall k :: 0 <= k < i ==> described[k] == EntryFor(children, listing[k], digest, windows)
      invariant forall k :: 0 <= k < i ==> Describable(root, children, listing[k].path)
    {
      if !Describable(root, children, listing[i].path) { return None; }
      described := described + [EntryFor(children, listing[i], digest, windows)];
    }
    files := Some(described);
  }

  lemma UndescribedCounts(root: Path, children: seq<Child>, ownName: string)
    requires WellFormed(children)
    requires exists k :: 0 <= k < |Listing(children, ownName)|
                         && !Describable(root, children, Listing(children, ownName)[k].path)
    ensures exists p :: Counts(children, ownName, p) && !Describable(root, children, p)
  {
    var k :| 0 <= k < |Listing(children, ownName)| && !Describable(root, children, Listing(children, ownName)[k].path);
    ListedCounts(children, ownName, k);
  }

  method CreateArtifactInventory(root: Path, children: seq<Child>, ownName: string, digest: Digest, windows: bool)
    returns (r: Option<seq<Entry>>)
    requires WellFormed(children)
    ensures r.Some? <==> Creatable(root, children, ownName)
    ensures r.Some? ==> AscendingEntries(r.value) && Exact(root, children, r.value, ownName, digest, !windows)
    ensures r.Some? && windows ==> NoneExecutable(r.value)
  {
    var collected, special := CollectEntries(children, []);
    ActualPaths(children, collected, special);
    if special != [] { return None; }
    var listing := Listing(children, ownName);
    r := DescribeAll(root, children, listing, digest, windows);
    if r.None? {
      UndescribedCounts(root, children, ownName);
    } else if r.value == [] {
      NothingCounts(children, ownName);
      r := None;
    } else {
      ListedCounts(children, ownName, 0);
      CreatedIsExact(root, children, ownName, digest, windows, listing, r.value);
    }
  }
}
