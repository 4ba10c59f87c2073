/** Selecting the path from the session root to the current leaf in Pi's append-only entry tree. */
module ActiveBranch {
  import opened Common

  /** What branch selection reads of a stored entry; absent when it is not a string. */
  datatype Node = Node(id: Option<string>, parentId: Option<string>)

  /** Later entries replace earlier ones with the same id. */
  function ById(entries: seq<Node>): (m: map<string, Node>)
    ensures forall i :: i in m ==> m[i].id == Some(i) && m[i] in entries
    ensures forall k :: 0 <= k < |entries| && entries[k].id.Some? ==> entries[k].id.value in m
  {
    if entries == [] then map[]
    else
      var rest := ById(entries[..|entries|-1]);
      var last := entries[|entries|-1];
      if last.id.Some? then rest[last.id.value := last] else rest
  }

  /** The entry known by an id is the last one that has it. */
  lemma {:induction false} LastOneCounts(entries: seq<Node>, k: nat)
    requires k < |entries| && entries[k].id.Some?
    requires forall j :: k < j < |entries| ==> entries[j].id != entries[k].id
    ensures entries[k].id.value in ById(entries) && ById(entries)[entries[k].id.value] == entries[k]
    decreases |entries|
  {
    if k < |entries| - 1 {
      LastOneCounts(entries[..|entries|-1], k);
      assert entries[|entries|-1].id != entries[k].id;
    }
  }

  /** Each entry is the known entry of its id, and the parent of the next one. */
  predicate Chain(byId: map<string, Node>, path: seq<Node>) {
    && (forall k :: 0 <= k < |path| ==> path[k].id.Some? && path[k].id.value in byId
                                         && byId[path[k].id.value] == path[k])
    && (forall k :: 0 < k < |path| ==> path[k].parentId == path[k-1].id)
  }

  predicate EndsAt(path: seq<Node>, leaf: string) {
    path != [] && path[|path|-1].id == Some(leaf)
  }

  predicate IsRoot(byId: map<string, Node>, n: Node) {
    n.parentId.None? || n.parentId.value !in byId
  }

  function Reversed(s: seq<Node>): (r: seq<Node>)
    ensures |r| == |s| && forall k :: 0 <= k < |s| ==> r[k] == s[|s| - 1 - k]
  {
    if s == [] then [] else Reversed(s[1..]) + [s[0]]
  }

  method IndexById(entries: seq<Node>) returns (byId: map<string, Node>)
    ensures byId == ById(entries)
  {
    byId := map[];
    for i := 0 to |entries|
      invariant byId == ById(entries[..i])
    {
      assert entries[..i+1][..i] == entries[..i];
      if entries[i].id.Some? { byId := byId[entries[i].id.value := entries[i]]; }
    }
    assert entries[..|entries|] == entries;
  }

  /**
   Follow the parents from the leaf. For every list of entries, with cycles or missing parents, this
   ends: each step adds a new known id. What it returns is a chain without repeats that ends at the
   leaf and cannot be extended: its first entry is a root or closes a cycle.
   */
  method ActiveBranchEntries(entries: seq<Node>, leafId: Option<string>) returns (branch: seq<Node>)
    ensures Chain(ById(entries), branch) && NoRepeats(branch)
    ensures leafId.Some? && leafId.value in ById(entries) ==> EndsAt(branch, leafId.value)
    ensures leafId.None? || leafId.value !in ById(entries) ==> branch == []
    ensures branch != [] ==> IsRoot(ById(entries), branch[0]) || ById(entries)[branch[0].parentId.value] in branch
  {
    if leafId.None? { return []; }
    var byId := IndexById(entries);
    var up: seq<Node> := [];
    var seen: set<string> := {};
    var current := leafId;
    while current.Some? && current.value !in seen
      invariant seen <= byId.Keys
      invariant forall k :: 0 <= k < |up| ==> up[k].id.Some? && up[k].id.value in byId && byId[up[k].id.value] == up[k]
      invariant forall k :: 0 < k < |up| ==> up[k-1].parentId == up[k].id
      invariant forall i :: i in seen <==> (i in byId && byId[i] in up)
      invariant NoRepeats(up)
      invariant up == [] ==> current == leafId
      invariant up != [] ==> up[0].id == leafId && current == up[|up|-1].parentId
      decreases byId.Keys - seen
    {
      if current.value !in byId { break; }
      var entry := byId[current.value];
      seen := seen + {current.value};
      up := up + [entry];
      current := entry.parentId;
    }
    branch := Reversed(up);
    if up != [] && current.Some? && current.value in byId {
      assert current.value in seen;
      var k :| 0 <= k < |up| && up[k] == byId[current.value];
      assert branch[|up| - 1 - k] == byId[current.value];
    }
  }

  /** A chain from a root to the leaf. */
  predicate RootPath(byId: map<string, Node>, path: seq<Node>, leaf: string) {
    Chain(byId, path) && EndsAt(path, leaf) && IsRoot(byId, path[0])
  }

  lemma LongChainEndsBelowRoot(byId: map<string, Node>, path: seq<Node>)
    requires Chain(byId, path) && |path| > 1
    ensures !IsRoot(byId, path[|path|-1]) && path[|path|-1].parentId == path[|path|-2].id
  {
    var k := |path| - 1;
    assert path[k].parentId == path[k-1].id;
  }

  /** There is at most one chain from a root to a leaf. */
  lemma {:induction false} RootPathIsUnique(byId: map<string, Node>, p: seq<Node>, q: seq<Node>, leaf: string)
    requires RootPath(byId, p, leaf) && RootPath(byId, q, leaf)
    ensures p == q
    decreases |p|
  {
    var x, y := p[|p|-1], q[|q|-1];
    assert x == byId[leaf] && y == byId[leaf];
    if |p| > 1 { LongChainEndsBelowRoot(byId, p); }
    if |q| > 1 { LongChainEndsBelowRoot(byId, q); }
    if |p| > 1 && |q| > 1 {
      var p', q' := p[..|p|-1], q[..|q|-1];
      RootPathIsUnique(byId, p', q', x.parentId.value);
      assert p == p' + [x] && q == q' + [y];
    }
  }

  /** The parent links form a tree: some depth decreases towards the root. */
  predicate IsTree(byId: map<string, Node>, depth: map<string, nat>) {
    forall i :: i in byId ==>
      i in depth
      && (!IsRoot(byId, byId[i]) ==> byId[i].parentId.value in depth && depth[byId[i].parentId.value] < depth[i])
  }

  lemma {:induction false} DepthGrows(byId: map<string, Node>, depth: map<string, nat>, path: seq<Node>, k: nat)
    requires IsTree(byId, depth) && Chain(byId, path) && k < |path|
    ensures depth[path[0].id.value] + k <= depth[path[k].id.value]
  {
    if k > 0 {
      DepthGrows(byId, depth, path, k - 1);
      assert path[k].parentId == path[k-1].id;
      assert path[k] == byId[path[k].id.value];
    }
  }

  /**
   When the parent links form a tree, a chain that ends at a known leaf and cannot be extended, such
   as the active branch, is the one path from a root to that leaf.
   */
  lemma BranchOfTreeIsTheRootPath(entries: seq<Node>, depth: map<string, nat>, branch: seq<Node>, leaf: string)
    requires IsTree(ById(entries), depth) && Chain(ById(entries), branch) && EndsAt(branch, leaf)
    requires IsRoot(ById(entries), branch[0]) || ById(entries)[branch[0].parentId.value] in branch
    ensures RootPath(ById(entries), branch, leaf)
    ensures forall path :: RootPath(ById(entries), path, leaf) ==> path == branch
  {
    var byId := ById(entries);
    if !IsRoot(byId, branch[0]) {
      var k :| 0 <= k < |branch| && branch[k] == byId[branch[0].parentId.value];
      DepthGrows(byId, depth, branch, k);
    }
    forall path | RootPath(byId, path, leaf) ensures path == branch {
      RootPathIsUnique(byId, path, branch, leaf);
    }
  }
}
