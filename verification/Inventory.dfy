/** The inventory of a release: exactly which files and links it has, and what is in them. */
module Inventory {
  import opened Common

  /** A link target as written, split at its slashes. */
  datatype Target = Target(absolute: bool, parts: seq<string>)

  datatype Node =
    | File(body: string, executable: bool)
    | Link(target: Target, dangling: bool)
    | Directory(children: seq<Child>)
    | Special

  datatype Child = Child(name: string, node: Node)

  type Path = seq<string>

  datatype Kind = FileKind | LinkKind | SpecialKind

  datatype Leaf = Leaf(path: Path, kind: Kind)

  datatype Entry =
    | FileEntry(path: Path, size: nat, digest: string, executable: bool)
    | LinkEntry(path: Path, target: Target)

  // ---------------------------------------------------------------- the tree

  predicate SafeName(name: string) { name != "" && '/' !in name }

  predicate WellFormed(children: seq<Child>) {
    children == [] ||
    (&& SafeName(children[0].name)
     && (children[0].node.Directory? ==> WellFormed(children[0].node.children))
     && (forall i :: 1 <= i < |children| ==> children[i].name != children[0].name)
     && WellFormed(children[1..]))
  }

  /** What is at a path, going down name by name. */
  function Lookup(children: seq<Child>, path: Path): Option<Node>
    decreases |path|, |children|
  {
    if path == [] || children == [] then None
    else if children[0].name != path[0] then Lookup(children[1..], path)
    else if |path| == 1 then Some(children[0].node)
    else if children[0].node.Directory? then Lookup(children[0].node.children, path[1..])
    else None
  }

  function KindOf(n: Option<Node>): Option<Kind> {
    match n
    case Some(File(_, _)) => Some(FileKind)
    case Some(Link(_, _)) => Some(LinkKind)
    case Some(Special) => Some(SpecialKind)
    case _ => None
  }

  /** Everything that is not a directory, in the order of the walk. */
  function Leaves(children: seq<Child>, prefix: Path): seq<Leaf> {
    if children == [] then []
    else
      var path := prefix + [children[0].name];
      (match children[0].node
       case File(_, _) => [Leaf(path, FileKind)]
       case Link(_, _) => [Leaf(path, LinkKind)]
       case Special => [Leaf(path, SpecialKind)]
       case Directory(below) => Leaves(below, path))
      + Leaves(children[1..], prefix)
  }

  lemma {:induction false} LookupFindsName(children: seq<Child>, path: Path)
    requires Lookup(children, path).Some?
    ensures path != [] && exists i :: 0 <= i < |children| && children[i].name == path[0]
    decreases |children|
  {
    if children[0].name != path[0] {
      LookupFindsName(children[1..], path);
      var i :| 0 <= i < |children[1..]| && children[1..][i].name == path[0];
      assert children[i + 1].name == path[0];
    }
  }

  lemma {:induction false} LeavesAreThere(children: seq<Child>, prefix: Path, leaf: Leaf)
    requires WellFormed(children) && leaf in Leaves(children, prefix)
    ensures prefix < leaf.path && KindOf(Lookup(children, leaf.path[|prefix|..])) == Some(leaf.kind)
    decreases children
  {
    var head, path := children[0], prefix + [children[0].name];
    if leaf in Leaves(children[1..], prefix) {
      LeavesAreThere(children[1..], prefix, leaf);
      LookupFindsName(children[1..], leaf.path[|prefix|..]);
    } else if head.node.Directory? {
      LeavesAreThere(head.node.children, path, leaf);
      var q := leaf.path[|prefix|..];
      assert q[0] == head.name && q[1..] == leaf.path[|path|..] && |q| > 1;
    } else {
      assert leaf.path[|prefix|..] == [head.name];
    }
  }

  lemma {:induction false} LeavesAreAll(children: seq<Child>, prefix: Path, q: Path)
    requires WellFormed(children) && KindOf(Lookup(children, q)).Some?
    ensures Leaf(prefix + q, KindOf(Lookup(children, q)).value) in Leaves(children, prefix)
    decreases children
  {
    var head := children[0];
    if head.name != q[0] {
      LeavesAreAll(children[1..], prefix, q);
    } else if |q| > 1 {
      LeavesAreAll(head.node.children, prefix + [head.name], q[1..]);
      assert prefix + [head.name] + q[1..] == prefix + q;
    } else {
      assert q == [head.name];
    }
  }

  /** The walk finds exactly what is there. */
  lemma LeavesAre(children: seq<Child>, leaf: Leaf)
    requires WellFormed(children)
    ensures leaf in Leaves(children, []) <==> KindOf(Lookup(children, leaf.path)) == Some(leaf.kind)
  {
    if leaf in Leaves(children, []) {
      LeavesAreThere(children, [], leaf);
      assert leaf.path[0..] == leaf.path;
    }
    if KindOf(Lookup(children, leaf.path)) == Some(leaf.kind) {
      LeavesAreAll(children, [], leaf.path);
      assert [] + leaf.path == leaf.path;
    }
  }

  /** The walk, collecting files and links; anything else is a problem. */
  method CollectEntries(children: seq<Child>, prefix: Path) returns (collected: seq<Leaf>, special: seq<Path>)
    ensures forall leaf :: leaf in Leaves(children, prefix) <==>
              leaf in collected || (leaf.kind.SpecialKind? && leaf.path in special)
    ensures forall leaf :: leaf in collected ==> !leaf.kind.SpecialKind?
    decreases children
  {
    collected, special := [], [];
    for i := 0 to |children|
      invariant forall leaf :: leaf in Leaves(children, prefix) <==>
                  leaf in collected || (leaf.kind.SpecialKind? && leaf.path in special)
                  || leaf in Leaves(children[i..], prefix)
      invariant forall leaf :: leaf in collected ==> !leaf.kind.SpecialKind?
    {
      var path := prefix + [children[i].name];
      assert children[i..][0] == children[i] && children[i..][1..] == children[i+1..];
      match children[i].node
      case Link(_, _) => collected := collected + [Leaf(path, LinkKind)];
      case File(_, _) => collected := collected + [Leaf(path, FileKind)];
      case Special => special := special + [path];
      case Directory(below) =>
        var more, moreSpecial := CollectEntries(below, path);
        collected, special := collected + more, special + moreSpecial;
    }
    assert children[|children|..] == [];
  }

  // ---------------------------------------------------------------- links

  /** Resolve parts one after another; `..` at the filesystem root stays there. */
  function Resolve(base: Path, parts: seq<string>): Path
    decreases |parts|
  {
    if parts == [] then base
    else
      var next := if parts[0] == "" || parts[0] == "." then base
                  else if parts[0] == ".." then (if base == [] then [] else base[..|base|-1])
                  else base + [parts[0]];
      Resolve(next, parts[1..])
  }

  predicate ProperName(name: string) { name != "" && name != "." && name != ".." }

  lemma {:induction false} ResolvesDown(base: Path, names: seq<string>)
    requires forall i :: 0 <= i < |names| ==> ProperName(names[i])
    ensures Resolve(base, names) == base + names
    decreases |names|
  {
    if names == [] {
      assert base + names == base;
    } else {
      ResolvesDown(base + [names[0]], names[1..]);
      assert base + [names[0]] + names[1..] == base + names;
    }
  }

  /** So many steps up, then down through proper names; above the filesystem root there is nothing. */
  lemma {:induction false} ResolvesUpThenDown(base: Path, up: nat, names: seq<string>)
    requires forall i :: 0 <= i < |names| ==> ProperName(names[i])
    ensures Resolve(base, seq(up, i => "..") + names) == base[..if up <= |base| then |base| - up else 0] + names
    decreases up
  {
    var parts := seq(up, i => "..") + names;
    if up == 0 {
      assert parts == names && base[..|base|] == base;
      ResolvesDown(base, names);
    } else {
      assert parts[0] == ".." && parts[1..] == seq(up - 1, i => "..") + names;
      ResolvesUpThenDown(if base == [] then [] else base[..|base|-1], up - 1, names);
    }
  }

  /** Empty parts and single dots make no difference. */
  lemma {:induction false} DotsDoNotMatter(base: Path, before: seq<string>, dot: string, after: seq<string>)
    requires dot == "" || dot == "."
    ensures Resolve(base, before + [dot] + after) == Resolve(base, before + after)
    decreases |before|
  {
    if before == [] {
      assert before + [dot] + after == [dot] + after && before + after == after;
      assert ([dot] + after)[1..] == after;
    } else {
      assert (before + [dot] + after)[1..] == before[1..] + [dot] + after;
      assert (before + after)[1..] == before[1..] + after;
      DotsDoNotMatter(if before[0] == "" || before[0] == "." then base
                      else if before[0] == ".." then (if base == [] then [] else base[..|base|-1])
                      else base + [before[0]], before[1..], dot, after);
    }
  }

  predicate StaysInside(root: Path, link: Path, target: Target)
    requires link != []
  {
    root < Resolve(if target.absolute then [] else root + link[..|link|-1], target.parts)
  }

  // ---------------------------------------------------------------- verification

  datatype Reason = Missing | Unexpected | NotFile | NotSymlink | Symlink | WrongTarget | Size | Sha256 | Executable

  datatype Problem = Problem(path: Path, reason: Reason)

  type Digest = string -> string

  /** The entry and the tree agree. */
  predicate Agrees(root: Path, children: seq<Child>, digest: Digest, enforce: bool, e: Entry) {
    match (e, Lookup(children, e.path))
    case (FileEntry(_, size, sha, executable), Some(File(body, x))) =>
      |body| == size && digest(body) == sha && (enforce ==> x == executable)
    case (LinkEntry(path, target), Some(Link(t, _))) => path != [] && t == target && StaysInside(root, path, t)
    case _ => false
  }

  ghost predicate Listed(files: seq<Entry>, p: Path) { exists i :: 0 <= i < |files| && files[i].path == p }

  /** A path that is not a directory, nor the inventory's own file. */
  predicate Counts(children: seq<Child>, ownName: string, p: Path) {
    KindOf(Lookup(children, p)).Some? && p != [ownName]
  }

  /** The tree holds exactly what the inventory says, the inventory file itself aside. */
  ghost predicate Exact(root: Path, children: seq<Child>, files: seq<Entry>, ownName: string, digest: Digest,
                        enforce: bool) {
    && (forall p :: KindOf(Lookup(children, p)) != Some(SpecialKind))
    && (forall p :: Counts(children, ownName, p) <==> Listed(files, p))
    && (forall i :: 0 <= i < |files| ==> Agrees(root, children, digest, enforce, files[i]))
  }

  /** The problems of one listed entry that is there. */
  method CheckEntry(root: Path, children: seq<Child>, digest: Digest, enforce: bool, e: Entry)
    returns (problems: seq<Problem>)
    requires KindOf(Lookup(children, e.path)) in {Some(FileKind), Some(LinkKind)}
    ensures problems == [] <==> Agrees(root, children, digest, enforce, e)
    ensures forall p :: p in problems ==> p.path == e.path
  {
    problems := [];
    var node := Lookup(children, e.path).value;
    if e.LinkEntry? {
      if !node.Link? { return [Problem(e.path, NotSymlink)]; }
      if !StaysInside(root, e.path, node.target) || node.target != e.target { return [Problem(e.path, WrongTarget)]; }
      return;
    }
    if node.Link? { return [Problem(e.path, Symlink)]; }
    if |node.body| != e.size { return [Problem(e.path, Size)]; }
    if digest(node.body) != e.digest { problems := problems + [Problem(e.path, Sha256)]; }
    if enforce && node.executable != e.executable { problems := problems + [Problem(e.path, Executable)]; }
  }

  function PathsOf(leaves: seq<Leaf>): set<Path> { set l | l in leaves :: l.path }

  function ListedPaths(files: seq<Entry>): set<Path> { set e | e in files :: e.path }

  /** Paths that are there and not listed. */
  method CheckUnexpected(actual: seq<Leaf>, actualPaths: set<Path>, expectedPaths: set<Path>)
    returns (problems: seq<Problem>)
    ensures problems == [] <==>
              forall k :: 0 <= k < |actual| && actual[k].path in actualPaths ==> actual[k].path in expectedPaths
  {
    problems := [];
    for i := 0 to |actual|
      invariant problems == [] <==>
                  forall k :: 0 <= k < i && actual[k].path in actualPaths ==> actual[k].path in expectedPaths
    {
      if actual[i].path in actualPaths && actual[i].path !in expectedPaths {
        problems := problems + [Problem(actual[i].path, Unexpected)];
      }
    }
  }

  predicate EntryFine(root: Path, children: seq<Child>, digest: Digest, enforce: bool, e: Entry,
                      actualPaths: set<Path>) {
    e.path in actualPaths && Agrees(root, children, digest, enforce, e)
  }

  /** Every listed entry, against the tree. */
  method CheckListed(root: Path, children: seq<Child>, files: seq<Entry>, digest: Digest, enforce: bool,
                     actualPaths: set<Path>)
    returns (problems: seq<Problem>)
    requires forall p :: p in actualPaths ==> KindOf(Lookup(children, p)) in {Some(FileKind), Some(LinkKind)}
    ensures problems == [] <==>
              forall k :: 0 <= k < |files| ==> EntryFine(root, children, digest, enforce, files[k], actualPaths)
  {
    problems := [];
    for i := 0 to |files|
      invariant problems == [] <==>
                forall k :: 0 <= k < i ==> EntryFine(root, children, digest, enforce, files[k], actualPaths)
    {
      if files[i].path !in actualPaths {
        problems := problems + [Problem(files[i].path, Missing)];
      } else {
        var more := CheckEntry(root, children, digest, enforce, files[i]);
        problems := problems + more;
      }
    }
  }

  /** What was collected, in terms of the tree. */
  lemma ActualPaths(children: seq<Child>, actual: seq<Leaf>, special: seq<Path>)
    requires WellFormed(children)
    requires forall leaf :: leaf in Leaves(children, []) <==>
              leaf in actual || (leaf.kind.SpecialKind? && leaf.path in special)
    requires forall leaf :: leaf in actual ==> !leaf.kind.SpecialKind?
    ensures forall p :: p in PathsOf(actual) <==> KindOf(Lookup(children, p)) in {Some(FileKind), Some(LinkKind)}
    ensures special == [] <==> forall p :: KindOf(Lookup(children, p)) != Some(SpecialKind)
  {
    forall p ensures p in PathsOf(actual) <==> KindOf(Lookup(children, p)) in {Some(FileKind), Some(LinkKind)} {
      LeavesAre(children, Leaf(p, FileKind));
      LeavesAre(children, Leaf(p, LinkKind));
      LeavesAre(children, Leaf(p, SpecialKind));
      if p in PathsOf(actual) {
        var l :| l in actual && l.path == p;
        assert l == Leaf(p, FileKind) || l == Leaf(p, LinkKind);
      }
    }
    if special != [] {
      LeavesAre(children, Leaf(special[0], SpecialKind));
    } else {
      forall p ensures KindOf(Lookup(children, p)) != Some(SpecialKind) { LeavesAre(children, Leaf(p, SpecialKind)); }
    }
  }

  ghost predicate NoProblems(root: Path, children: seq<Child>, files: seq<Entry>, ownName: string, digest: Digest,
                             enforce: bool,
                             actual: seq<Leaf>, special: seq<Path>)
  {
    var actualPaths := PathsOf(actual) - {[ownName]};
    && special == []
    && (forall k :: 0 <= k < |actual| && actual[k].path in actualPaths ==> actual[k].path in ListedPaths(files))
    && (forall k :: 0 <= k < |files| ==> EntryFine(root, children, digest, enforce, files[k], actualPaths))
  }

  lemma ExactHasNoProblems(root: Path, children: seq<Child>, files: seq<Entry>, ownName: string, digest: Digest,
                           enforce: bool,
                           actual: seq<Leaf>, special: seq<Path>)
    requires forall p :: p in PathsOf(actual) <==> KindOf(Lookup(children, p)) in {Some(FileKind), Some(LinkKind)}
    requires special == [] <==> forall p :: KindOf(Lookup(children, p)) != Some(SpecialKind)
    requires Exact(root, children, files, ownName, digest, enforce)
    ensures NoProblems(root, children, files, ownName, digest, enforce, actual, special)
  {
    var actualPaths := PathsOf(actual) - {[ownName]};
    forall k | 0 <= k < |actual| && actual[k].path in actualPaths ensures actual[k].path in ListedPaths(files) {
      assert Counts(children, ownName, actual[k].path);
      assert Listed(files, actual[k].path);
    }
    forall k | 0 <= k < |files| ensures EntryFine(root, children, digest, enforce, files[k], actualPaths) {
      assert Listed(files, files[k].path);
      assert Counts(children, ownName, files[k].path);
    }
  }

  lemma NoProblemsIsExact(root: Path, children: seq<Child>, files: seq<Entry>, ownName: string, digest: Digest,
                          enforce: bool,
                          actual: seq<Leaf>, special: seq<Path>)
    requires forall p :: p in PathsOf(actual) <==> KindOf(Lookup(children, p)) in {Some(FileKind), Some(LinkKind)}
    requires special == [] <==> forall p :: KindOf(Lookup(children, p)) != Some(SpecialKind)
    requires NoProblems(root, children, files, ownName, digest, enforce, actual, special)
    ensures Exact(root, children, files, ownName, digest, enforce)
  {
    var actualPaths := PathsOf(actual) - {[ownName]};
    forall p ensures Counts(children, ownName, p) <==> Listed(files, p) {
      if Counts(children, ownName, p) {
        assert KindOf(Lookup(children, p)) != Some(SpecialKind);
        assert p in PathsOf(actual);
        var l :| l in actual && l.path == p;
        assert p in ListedPaths(files);
      }
      if Listed(files, p) {
        var k :| 0 <= k < |files| && files[k].path == p;
        assert EntryFine(root, children, digest, enforce, files[k], actualPaths);
      }
    }
    forall k | 0 <= k < |files| ensures Agrees(root, children, digest, enforce, files[k]) {
      assert EntryFine(root, children, digest, enforce, files[k], actualPaths);
    }
  }

  method VerifyArtifactInventory(root: Path, children: seq<Child>, files: seq<Entry>, ownName: string,
                                 digest: Digest, enforce: bool) returns (valid: bool, problems: seq<Problem>)
    requires WellFormed(children)
    ensures valid <==> Exact(root, children, files, ownName, digest, enforce)
    ensures valid <==> problems == []
  {
    var actual, special := CollectEntries(children, []);
    var actualPaths := PathsOf(actual) - {[ownName]};
    ActualPaths(children, actual, special);
    var unexpected := CheckUnexpected(actual, actualPaths, ListedPaths(files));
    var listed := CheckListed(root, children, files, digest, enforce, actualPaths);
    problems := seq(|special|, i requires 0 <= i < |special| => Problem(special[i], NotFile)) + unexpected + listed;
    valid := problems == [];
    assert valid <==> NoProblems(root, children, files, ownName, digest, enforce, actual, special);
    if valid { NoProblemsIsExact(root, children, files, ownName, digest, enforce, actual, special); }
    if Exact(root, children, files, ownName, digest, enforce) {
      ExactHasNoProblems(root, children, files, ownName, digest, enforce, actual, special);
    }
  }
}
