/**
 A disk as a tree: every file and directory at its full path, and the operations on whole subtrees. A
 directory is also there when something lies under it.
 */
module DataTree {
  import opened Common

  type Path = seq<string>

  datatype SavedRoot = SavedRoot(name: string, existed: bool)

  /** A snapshot's manifest is a file of its own kind, in place of its JSON text. */
  datatype Node = Directory | File(body: string) | SymbolicLink(target: string) | Manifest(roots: seq<SavedRoot>)

  /** The nodes of a subtree by their paths within it. A disk is a tree from its root. */
  datatype Tree = Tree(nodes: map<Path, Node>)

  type Disk = Tree

  /** Where nothing is. */
  const ABSENT := Tree(map[])

  const EMPTY_DIRECTORY := Single(Directory)

  function Single(node: Node): Tree { Tree(map[[] := node]) }

  /** One path is the other, or lies below it. */
  predicate Overlap(a: Path, b: Path) { a <= b || b <= a }

  ghost predicate IsSubtree(t: Tree, at: Disk, p: Path) {
    && (forall r {:trigger r in t.nodes} :: r in t.nodes <==> p + r in at.nodes)
    && (forall r {:trigger t.nodes[r]} :: r in t.nodes ==> t.nodes[r] == at.nodes[p + r])
  }

  /** Of the nodes with these paths, those at and below the path. */
  ghost function Gathered(at: Disk, p: Path, keys: set<Path>): Tree
    requires keys <= at.nodes.Keys
  {
    if keys == {} then ABSENT
    else
      var k :| k in keys;
      var rest := Gathered(at, p, keys - {k});
      if p <= k then Tree(rest.nodes[k[|p|..] := at.nodes[k]]) else rest
  }

  /** What lies at and below the path. */
  ghost function Subtree(at: Disk, p: Path): Tree { Gathered(at, p, at.nodes.Keys) }

  lemma {:induction false} GatheredIs(at: Disk, p: Path, keys: set<Path>)
    requires keys <= at.nodes.Keys
    ensures forall r {:trigger r in Gathered(at, p, keys).nodes} :: r in Gathered(at, p, keys).nodes <==> p + r in keys
    ensures forall r {:trigger Gathered(at, p, keys).nodes[r]} ::
              r in Gathered(at, p, keys).nodes ==> Gathered(at, p, keys).nodes[r] == at.nodes[p + r]
  {
    if keys != {} {
      var k :| k in keys && Gathered(at, p, keys) ==
                            (var rest := Gathered(at, p, keys - {k});
                             if p <= k then Tree(rest.nodes[k[|p|..] := at.nodes[k]]) else rest);
      GatheredIs(at, p, keys - {k});
      if p <= k { assert p + k[|p|..] == k; }
      forall r ensures p + r == k ==> p <= k && r == k[|p|..] {}
    }
  }

  lemma SubtreeIs(at: Disk, p: Path)
    ensures IsSubtree(Subtree(at, p), at, p)
  {
    GatheredIs(at, p, at.nodes.Keys);
  }

  function Extracted(at: Disk, p: Path): (t: Tree)
    ensures IsSubtree(t, at, p)
  {
    var rests := set k | k in at.nodes && p <= k :: k[|p|..];
    assert forall k | k in at.nodes && p <= k :: p + k[|p|..] == k;
    assert forall r :: p + r in at.nodes ==> (p + r)[|p|..] == r;
    Tree(map r | r in rests :: at.nodes[p + r])
  }

  /** Something is there: a node, or nodes below it. */
  ghost predicate Present(at: Disk, p: Path) { Subtree(at, p) != ABSENT }

  lemma PresentBelow(at: Disk, p: Path, k: Path)
    requires k in at.nodes && p <= k
    ensures Present(at, p)
  {
    SubtreeIs(at, p);
    assert p + k[|p|..] == k;
    assert k[|p|..] in Subtree(at, p).nodes;
  }

  lemma PresentIs(at: Disk, p: Path) returns (k: Path)
    requires Present(at, p)
    ensures k in at.nodes && p <= k
  {
    SubtreeIs(at, p);
    var r :| r in Subtree(at, p).nodes;
    k := p + r;
  }

  predicate IsThere(at: Disk, p: Path): (there: bool)
    ensures there <==> Present(at, p)
  {
    assert (exists k :: k in at.nodes && p <= k) <==> Present(at, p) by {
      if k :| k in at.nodes && p <= k { PresentBelow(at, p, k); }
      if Present(at, p) { var k := PresentIs(at, p); }
    }
    exists k :: k in at.nodes && p <= k
  }

  /** The node seen at a path. */
  function NodeAt(at: Disk, p: Path): (seen: Option<Node>)
    ensures seen.Some? <==> Present(at, p)
  {
    assert p in at.nodes ==> Present(at, p) by { if p in at.nodes { PresentBelow(at, p, p); } }
    if p in at.nodes then Some(at.nodes[p]) else if IsThere(at, p) then Some(Directory) else None
  }

  lemma ExtractedIs(at: Disk, p: Path)
    ensures Extracted(at, p) == Subtree(at, p)
  {
    SubtreeIs(at, p);
  }

  // ---------------------------------------------------------------- what changes, and what does not

  predicate Touched(k: Path, spots: set<Path>) { exists p :: p in spots && p <= k }

  ghost predicate SameAt(a: Disk, b: Disk, k: Path) {
    (k in a.nodes <==> k in b.nodes) && (k in a.nodes ==> a.nodes[k] == b.nodes[k])
  }

  /** The disks agree but at and below the spots. */
  ghost predicate SameOutside(a: Disk, b: Disk, spots: set<Path>) {
    forall k :: !Touched(k, spots) ==> SameAt(a, b, k)
  }

  /** The subtree has taken the place of whatever was at the path. */
  ghost predicate Placed(was: Disk, now: Disk, p: Path, t: Tree) {
    SameOutside(now, was, {p}) && Subtree(now, p) == t
  }

  /** The whole subtree has moved. */
  ghost predicate Moved(was: Disk, now: Disk, source: Path, destination: Path) {
    && SameOutside(now, was, {source, destination})
    && !Present(now, source) && Subtree(now, destination) == Subtree(was, source)
  }

  lemma SubtreeSame(a: Disk, b: Disk, p: Path)
    requires forall k :: p <= k ==> SameAt(a, b, k)
    ensures Subtree(a, p) == Subtree(b, p)
  {
    SubtreeIs(a, p);
    SubtreeIs(b, p);
    forall r ensures r in Subtree(a, p).nodes <==> r in Subtree(b, p).nodes { assert SameAt(a, b, p + r); }
    forall r | r in Subtree(a, p).nodes
      ensures Subtree(a, p).nodes[r] == Subtree(b, p).nodes[r]
    {
      assert SameAt(a, b, p + r);
    }
  }

  /** What is apart from all spots is the same. */
  lemma Elsewhere(a: Disk, b: Disk, spots: set<Path>, p: Path)
    requires SameOutside(a, b, spots) && forall q :: q in spots ==> !Overlap(p, q)
    ensures Subtree(a, p) == Subtree(b, p)
  {
    forall k | p <= k ensures SameAt(a, b, k) {
      if q :| q in spots && q <= k { assert Overlap(p, q); }
    }
    SubtreeSame(a, b, p);
  }

  lemma SameEverywhere(a: Disk, b: Disk)
    requires SameOutside(a, b, {}) || forall k :: SameAt(a, b, k)
    ensures a == b
  {
    forall k ensures SameAt(a, b, k) { assert !Touched(k, {}); }
    forall k ensures k in a.nodes <==> k in b.nodes { assert SameAt(a, b, k); }
    forall k | k in a.nodes ensures a.nodes[k] == b.nodes[k] { assert SameAt(a, b, k); }
  }

  /** The same but for one place, and the same there. */
  lemma SameDisk(a: Disk, b: Disk, p: Path)
    requires SameOutside(a, b, {p}) && Subtree(a, p) == Subtree(b, p)
    ensures a == b
  {
    SubtreeIs(a, p);
    SubtreeIs(b, p);
    forall k ensures SameAt(a, b, k) {
      if p <= k {
        assert p + k[|p|..] == k;
        assert k[|p|..] in Subtree(a, p).nodes <==> k in a.nodes;
        assert k[|p|..] in Subtree(b, p).nodes <==> k in b.nodes;
      } else {
        assert !Touched(k, {p});
      }
    }
    SameEverywhere(a, b);
  }

  lemma Below(p: Path, q: Path, r: Path)
    ensures (p + q) + r == p + (q + r)
  {
  }

  lemma SubtreeAgain(at: Disk, p: Path, q: Path)
    ensures Subtree(at, p + q) == Subtree(Subtree(at, p), q)
  {
    var outer := Subtree(at, p);
    var whole, inner := Subtree(at, p + q), Subtree(outer, q);
    SubtreeIs(at, p + q);
    SubtreeIs(at, p);
    SubtreeIs(outer, q);
    forall r ensures r in whole.nodes <==> r in inner.nodes {
      Below(p, q, r);
      assert r in inner.nodes <==> q + r in outer.nodes;
      assert q + r in outer.nodes <==> p + (q + r) in at.nodes;
    }
    forall r | r in whole.nodes ensures whole.nodes[r] == inner.nodes[r] {
      Below(p, q, r);
      assert inner.nodes[r] == outer.nodes[q + r] == at.nodes[p + (q + r)];
    }
  }

  /** What is in a subtree depends on the subtree alone. */
  lemma SubtreeWithin(a: Disk, p: Path, b: Disk, q: Path, rest: Path)
    requires Subtree(a, p) == Subtree(b, q)
    ensures Subtree(a, p + rest) == Subtree(b, q + rest)
  {
    SubtreeAgain(a, p, rest);
    SubtreeAgain(b, q, rest);
  }

  /** What is seen at a path depends on its subtree alone. */
  lemma NodeFromSubtree(a: Disk, b: Disk, p: Path)
    requires Subtree(a, p) == Subtree(b, p)
    ensures NodeAt(a, p) == NodeAt(b, p) && (Present(a, p) <==> Present(b, p))
  {
    SubtreeIs(a, p);
    SubtreeIs(b, p);
    assert p + [] == p;
    assert [] in Subtree(a, p).nodes <==> p in a.nodes;
    assert [] in Subtree(b, p).nodes <==> p in b.nodes;
  }

  lemma OverlapBelow(p: Path, q: Path, rest: Path)
    requires Overlap(p, q + rest)
    ensures Overlap(p, q)
  {
    var longer := q + rest;
    if p <= longer && |p| <= |q| { assert p == longer[..|p|] == q[..|p|]; }
    if p <= longer && |p| > |q| { assert p[..|q|] == longer[..|q|] == q; }
    if longer <= p { assert p[..|q|] == longer[..|q|] == q; }
  }

  lemma SameTwice(a: Disk, b: Disk, c: Disk, spots: set<Path>)
    requires SameOutside(a, b, spots) && SameOutside(b, c, spots)
    ensures SameOutside(a, c, spots)
  {
    forall k | !Touched(k, spots) ensures SameAt(a, c, k) { assert SameAt(a, b, k) && SameAt(b, c, k); }
  }

  lemma Wider(a: Disk, b: Disk, spots: set<Path>, more: set<Path>)
    requires SameOutside(a, b, spots) && spots <= more
    ensures SameOutside(a, b, more)
  {
    forall k | !Touched(k, more) ensures SameAt(a, b, k) {
      assert forall p :: p in spots ==> p in more;
      assert !Touched(k, spots);
    }
  }

  lemma Within(a: Disk, b: Disk, place: Path, rest: Path)
    requires SameOutside(a, b, {place + rest})
    ensures SameOutside(a, b, {place})
  {
    forall k | !Touched(k, {place}) ensures SameAt(a, b, k) {
      assert place in {place} && place <= place + rest;
      assert place + rest <= k ==> place <= k;
    }
  }

  // ---------------------------------------------------------------- the operations

  /** The disk with the subtree in place of whatever is at the path. */
  function Put(at: Disk, p: Path, t: Tree): (d: Disk)
    ensures forall k :: k in d.nodes <==> if p <= k then k[|p|..] in t.nodes else k in at.nodes
    ensures forall k :: k in d.nodes ==> d.nodes[k] == if p <= k then t.nodes[k[|p|..]] else at.nodes[k]
  {
    var planted := set r | r in t.nodes :: p + r;
    assert forall k | p <= k && k[|p|..] in t.nodes :: p + k[|p|..] == k;
    Tree(map k | k in at.nodes.Keys + planted && (if p <= k then k[|p|..] in t.nodes else k in at.nodes) ::
           if p <= k then t.nodes[k[|p|..]] else at.nodes[k])
  }

  lemma PutPlaces(at: Disk, p: Path, t: Tree)
    ensures Placed(at, Put(at, p, t), p, t)
  {
    SubtreeIs(Put(at, p, t), p);
    forall r ensures r in Subtree(Put(at, p, t), p).nodes <==> r in t.nodes { assert (p + r)[|p|..] == r; }
    forall r | r in t.nodes ensures Subtree(Put(at, p, t), p).nodes[r] == t.nodes[r] { assert (p + r)[|p|..] == r; }
    forall k | !Touched(k, {p}) ensures SameAt(Put(at, p, t), at, k) { assert p in {p}; }
  }

  function Renamed(at: Disk, source: Path, destination: Path): Disk {
    Put(Put(at, source, ABSENT), destination, Extracted(at, source))
  }

  lemma RenamedMoves(at: Disk, source: Path, destination: Path)
    requires !Overlap(source, destination)
    ensures Moved(at, Renamed(at, source, destination), source, destination)
  {
    var cleared, moved := Put(at, source, ABSENT), Renamed(at, source, destination);
    PutPlaces(at, source, ABSENT);
    ExtractedIs(at, source);
    PutPlaces(cleared, destination, Subtree(at, source));
    Elsewhere(moved, cleared, {destination}, source);
    Wider(moved, cleared, {destination}, {source, destination});
    Wider(cleared, at, {source}, {source, destination});
    SameTwice(moved, cleared, at, {source, destination});
  }

  class Files {
    var at: Disk
    /** Operations so far that failed, or at which a process died, for a reason this disk does not show. */
    var faults: nat

    /** What the environment does to the next operation. */
    method Environment() returns (o: Outcome)
      modifies this`faults
      ensures faults == if o.Done? then old(faults) else old(faults) + 1
    {
      o := *;
      if !o.Done? { faults := faults + 1; }
    }

    /** lstat; it may fail for reasons other than absence. */
    method Status(p: Path) returns (o: Outcome, found: Option<Node>)
      modifies this`faults
      ensures o.Done? ==> found == NodeAt(at, p)
      ensures faults == if o.Done? then old(faults) else old(faults) + 1
    {
      o := Environment();
      found := NodeAt(at, p);
    }

    /** Create one directory where nothing is. */
    method MakeDirectory(p: Path) returns (o: Outcome)
      modifies this
      ensures at == old(at) || (!Present(old(at), p) && Placed(old(at), at, p, EMPTY_DIRECTORY))
      ensures o.Done? ==> !Present(old(at), p) && Placed(old(at), at, p, EMPTY_DIRECTORY)
      ensures o.Failed? ==> at == old(at)
      ensures faults >= old(faults) && (!o.Done? ==> faults > old(faults) || (o.Failed? && Present(old(at), p)))
    {
      o := Environment();
      var made: bool := *;
      PutPlaces(at, p, EMPTY_DIRECTORY);
      if IsThere(at, p) {
        if o.Done? { o := Outcome.Failed; }
      } else if o.Done? || (o.Crashed? && made) {
        at := Put(at, p, EMPTY_DIRECTORY);
      }
    }

    /** Write a new file; cut short, the file is not a readable manifest. */
    method WriteManifest(p: Path, roots: seq<SavedRoot>) returns (o: Outcome)
      requires !Present(at, p)
      modifies this
      ensures SameOutside(at, old(at), {p})
      ensures o.Done? ==> Placed(old(at), at, p, Single(Manifest(roots)))
      ensures faults == if o.Done? then old(faults) else old(faults) + 1
    {
      o := Environment();
      var part: string, started: bool := *, *;
      if o.Done? || started {
        var written := if o.Done? then Manifest(roots) else File(part);
        PutPlaces(at, p, Single(written));
        at := Put(at, p, Single(written));
      }
    }

    /** Copy a subtree to where nothing is; it may stop half-way. */
    method CopyTree(source: Path, destination: Path) returns (o: Outcome)
      requires !Present(at, destination)
      modifies this
      ensures SameOutside(at, old(at), {destination})
      ensures o.Done? ==> Present(old(at), source) && Placed(old(at), at, destination, Subtree(old(at), source))
      ensures faults >= old(faults) && (!o.Done? ==> faults > old(faults) || (o.Failed? && !Present(old(at), source)))
    {
      o := Environment();
      var part: Tree := *;
      if !IsThere(at, source) {
        if o.Done? { o := Outcome.Failed; }
      } else {
        var arrived := if o.Done? then Extracted(at, source) else part;
        ExtractedIs(at, source);
        PutPlaces(at, destination, arrived);
        at := Put(at, destination, arrived);
      }
    }

    /** Rename a whole subtree to where nothing is: all or nothing. It is refused without a source. */
    method Rename(source: Path, destination: Path) returns (o: Outcome)
      requires !Present(at, destination) && !Overlap(source, destination)
      modifies this
      ensures at == old(at) || (Present(old(at), source) && Moved(old(at), at, source, destination))
      ensures o.Done? ==> Present(old(at), source) && Moved(old(at), at, source, destination)
      ensures o.Failed? ==> at == old(at)
      ensures faults >= old(faults) && (!o.Done? ==> faults > old(faults) || (o.Failed? && !Present(old(at), source)))
    {
      o := Environment();
      var moved: bool := *;
      if !IsThere(at, source) {
        if o.Done? { o := Outcome.Failed; }
      } else if o.Done? || (o.Crashed? && moved) {
        RenamedMoves(at, source, destination);
        at := Renamed(at, source, destination);
      }
    }

    /** Recursive, forced removal; it may stop half-way. */
    method Remove(p: Path) returns (o: Outcome)
      modifies this
      ensures SameOutside(at, old(at), {p})
              && (forall k :: k in at.nodes ==> k in old(at).nodes && at.nodes[k] == old(at).nodes[k])
      ensures o.Done? ==> !Present(at, p)
      ensures faults == if o.Done? then old(faults) else old(faults) + 1
    {
      o := Environment();
      var gone: set<Path> := *;
      ghost var was := at;
      at := Tree(map k | k in at.nodes && !(p <= k && (o.Done? || k in gone)) :: at.nodes[k]);
      forall k | !Touched(k, {p}) ensures SameAt(at, was, k) { assert p in {p}; }
      if o.Done? && Present(at, p) {
        ghost var k := PresentIs(at, p);
        assert false;
      }
    }
  }
}
