/**
 The protected data roots, and the snapshot of them: copied beside the snapshots and renamed into
 place, so that a snapshot is there whole or not at all.
 */
module DataSnapshot {
  import opened Common
  import opened DataTree

  datatype Root = Root(name: string, path: Path)

  datatype Layout = Layout(program: Path, transactions: Path)

  // ---------------------------------------------------------------- which roots are accepted

  predicate NameChar(c: char) { 'a' <= c <= 'z' || '0' <= c <= '9' || c == '-' }

  predicate SafeName(name: string) {
    1 <= |name| <= 63 && 'a' <= name[0] <= 'z' && forall c :: c in name ==> NameChar(c)
  }

  /** What is asked of a root by itself: a safe name, not the filesystem root, not the installer's own. */
  predicate RootAlone(layout: Layout, root: Root) {
    && SafeName(root.name) && root.path != []
    && !Overlap(root.path, layout.program) && !Overlap(root.path, layout.transactions)
  }

  predicate PairFine(a: Root, b: Root) { !Overlap(a.path, b.path) }

  predicate ValidRoots(layout: Layout, roots: seq<Root>) {
    && |roots| > 0
    && (forall i :: 0 <= i < |roots| ==> RootAlone(layout, roots[i]))
    && (forall i, j :: 0 <= i < j < |roots| ==>
          roots[i].name != roots[j].name && PairFine(roots[i], roots[j]))
  }

  predicate EachFine(layout: Layout, roots: seq<Root>, n: nat)
    requires n <= |roots|
  {
    && (forall i :: 0 <= i < n ==> RootAlone(layout, roots[i]))
    && (forall i, j :: 0 <= i < j < n ==> roots[i].name != roots[j].name && roots[i].path != roots[j].path)
  }

  method CheckEach(layout: Layout, roots: seq<Root>) returns (fine: bool)
    ensures fine == EachFine(layout, roots, |roots|)
  {
    var names: set<string>, paths: set<Path> := {}, {};
    for i := 0 to |roots|
      invariant EachFine(layout, roots, i)
      invariant names == set r | r in roots[..i] :: r.name
      invariant paths == set r | r in roots[..i] :: r.path
    {
      if roots[i].name in names {
        ghost var r :| r in roots[..i] && r.name == roots[i].name;
        return false;
      }
      if roots[i].path in paths {
        ghost var r :| r in roots[..i] && r.path == roots[i].path;
        return false;
      }
      if !RootAlone(layout, roots[i]) { return false; }
      assert roots[..i+1] == roots[..i] + [roots[i]];
      names := names + {roots[i].name};
      paths := paths + {roots[i].path};
    }
    fine := true;
  }

  method CheckPairs(roots: seq<Root>) returns (fine: bool)
    ensures fine == forall i, j :: 0 <= i < j < |roots| ==> PairFine(roots[i], roots[j])
  {
    for left := 0 to |roots|
      invariant forall i, j :: 0 <= i < left && i < j < |roots| ==> PairFine(roots[i], roots[j])
    {
      for right := left + 1 to |roots|
        invariant forall j :: left < j < right ==> PairFine(roots[left], roots[j])
      {
        if !PairFine(roots[left], roots[right]) { return false; }
      }
    }
    fine := true;
  }

  method ValidateRoots(layout: Layout, roots: seq<Root>) returns (valid: bool)
    ensures valid == ValidRoots(layout, roots)
  {
    if |roots| == 0 { return false; }
    var each := CheckEach(layout, roots);
    var pairs := CheckPairs(roots);
    valid := each && pairs;
    assert each && pairs ==> ValidRoots(layout, roots);
    assert ValidRoots(layout, roots) ==> pairs && each by {
      if ValidRoots(layout, roots) {
        forall i, j | 0 <= i < j < |roots| ensures roots[i].path != roots[j].path {
          assert PairFine(roots[i], roots[j]);
        }
      }
    }
  }

  // ---------------------------------------------------------------- where a snapshot lies

  function SnapshotPlace(layout: Layout, id: string): Path { layout.transactions + ["snapshots", id] }

  function TemporaryPlace(layout: Layout, id: string, nonce: string): Path {
    layout.transactions + ["snapshots", "." + id + "." + nonce + ".tmp"]
  }

  const MANIFEST := "snapshot.json"

  /** The manifest in a snapshot directory, if it can be read. */
  function ReadManifest(at: Disk, place: Path): Option<seq<SavedRoot>> {
    if place + [MANIFEST] in at.nodes && at.nodes[place + [MANIFEST]].Manifest?
    then Some(at.nodes[place + [MANIFEST]].roots) else None
  }

  ghost function EntryOf(at: Disk, root: Root): SavedRoot { SavedRoot(root.name, Present(at, root.path)) }

  /** The entries of a manifest for these roots as they are on the disk. */
  ghost function Entries(at: Disk, roots: seq<Root>): (entries: seq<SavedRoot>)
    ensures |entries| == |roots|
  {
    seq(|roots|, i requires 0 <= i < |roots| => EntryOf(at, roots[i]))
  }

  /** The entry of a directory. */
  ghost function Named(at: Disk, place: Path, name: string): Tree { Subtree(at, place + [name]) }

  /** The directory holds the manifest and, under its name, what each root held. */
  ghost predicate HoldsRoots(now: Disk, place: Path, at: Disk, roots: seq<Root>) {
    && ReadManifest(now, place) == Some(Entries(at, roots))
    && forall i :: 0 <= i < |roots| ==> Named(now, place, roots[i].name) == Subtree(at, roots[i].path)
  }

  ghost predicate RealDirectory(at: Disk, p: Path) { NodeAt(at, p) in {Option.None, Some(Directory)} }

  /** The first `k` roots are absent or real directories. */
  ghost predicate AreReal(at: Disk, roots: seq<Root>, k: nat)
    requires k <= |roots|
  {
    forall i :: 0 <= i < k ==> RealDirectory(at, roots[i].path)
  }

  // ---------------------------------------------------------------- taking a snapshot

  /** Below the snapshots there is no root. */
  lemma RootsElsewhere(layout: Layout, roots: seq<Root>, i: nat, rest: Path)
    requires ValidRoots(layout, roots) && i < |roots|
    ensures !Overlap(roots[i].path, layout.transactions + rest)
  {
    assert RootAlone(layout, roots[i]);
    if Overlap(roots[i].path, layout.transactions + rest) { OverlapBelow(roots[i].path, layout.transactions, rest); }
  }

  lemma SnapshotsApart(layout: Layout, id: string, nonce: string)
    ensures !Overlap(SnapshotPlace(layout, id), TemporaryPlace(layout, id, nonce))
  {
    var p, q, n := SnapshotPlace(layout, id), TemporaryPlace(layout, id, nonce), |layout.transactions| + 1;
    assert |p| == |q| == n + 1 && |p[n]| < |q[n]|;
  }

  predicate NamedBefore(roots: seq<Root>, k: nat, name: string)
    requires k <= |roots|
  {
    exists i :: 0 <= i < k && roots[i].name == name
  }

  /** How far the temporary directory is: the first `k` roots are copied, nothing else is in it. */
  ghost predicate Copied(now: Disk, place: Path, at: Disk, roots: seq<Root>, k: nat)
    requires k <= |roots|
  {
    && (forall i :: 0 <= i < k ==> Named(now, place, roots[i].name) == Subtree(at, roots[i].path))
    && (forall name :: !NamedBefore(roots, k, name) ==> Named(now, place, name) == ABSENT)
  }

  lemma NamesApart(place: Path, a: string, b: string)
    requires a != b
    ensures !Overlap(place + [a], place + [b])
  {
    assert (place + [a])[|place|] == a && (place + [b])[|place|] == b;
  }

  lemma NamedElsewhere(was: Disk, now: Disk, place: Path, name: string, other: string)
    requires SameOutside(now, was, {place + [name]}) && other != name
    ensures Named(now, place, other) == Named(was, place, other)
  {
    NamesApart(place, other, name);
    Elsewhere(now, was, {place + [name]}, place + [other]);
  }

  lemma CopiedNext(was: Disk, now: Disk, place: Path, at: Disk, roots: seq<Root>, k: nat)
    requires k < |roots| && Copied(was, place, at, roots, k) && !NamedBefore(roots, k, roots[k].name)
    requires SameOutside(now, was, {place + [roots[k].name]})
    requires Named(now, place, roots[k].name) == Subtree(at, roots[k].path)
    ensures Copied(now, place, at, roots, k + 1)
  {
    var name := roots[k].name;
    forall i | 0 <= i < k ensures Named(now, place, roots[i].name) == Subtree(at, roots[i].path) {
      assert NamedBefore(roots, k, roots[i].name);
      NamedElsewhere(was, now, place, name, roots[i].name);
    }
    forall other | !NamedBefore(roots, k + 1, other) ensures Named(now, place, other) == ABSENT {
      assert roots[k].name != other && !NamedBefore(roots, k, other);
      NamedElsewhere(was, now, place, name, other);
    }
  }

  /** One root is copied under its name. */
  method CopyRoot(files: Files, place: Path, roots: seq<Root>, k: nat, ghost at: Disk)
    returns (o: Outcome, existed: bool)
    requires k < |roots| && Copied(files.at, place, at, roots, k) && SameOutside(files.at, at, {place})
    requires !NamedBefore(roots, k, roots[k].name)
    requires !Overlap(roots[k].path, place)
    modifies files
    ensures SameOutside(files.at, at, {place})
    ensures o.Done? ==> Copied(files.at, place, at, roots, k + 1) && existed == Present(at, roots[k].path)
                        && RealDirectory(at, roots[k].path)
    ensures files.faults >= old(files.faults)
    ensures !o.Done? ==> files.faults > old(files.faults) || !RealDirectory(at, roots[k].path)
    ensures o.Crashed? ==> files.faults > old(files.faults)
  {
    var root, destination := roots[k], place + [roots[k].name];
    Elsewhere(files.at, at, {place}, root.path);
    NodeFromSubtree(files.at, at, root.path);
    ghost var was := files.at;
    existed := false;
    var found;
    o, found := files.Status(root.path);
    if !o.Done? { return; }
    if found.Some? && !found.value.Directory? { return Outcome.Failed, false; }
    existed := found.Some?;
    assert Named(was, place, root.name) == ABSENT;
    if existed {
      o := files.CopyTree(root.path, destination);
      Within(files.at, was, place, [root.name]);
      SameTwice(files.at, was, at, {place});
    }
    if o.Done? {
      CopiedNext(was, files.at, place, at, roots, k);
    }
  }

  lemma ManifestIsNoName(layout: Layout, roots: seq<Root>, i: nat)
    requires ValidRoots(layout, roots) && i < |roots|
    ensures roots[i].name != MANIFEST
  {
    assert RootAlone(layout, roots[i]);
    assert MANIFEST[8] == '.' && MANIFEST[8] in MANIFEST && !NameChar('.');
  }

  lemma WithManifest(was: Disk, now: Disk, place: Path, at: Disk, roots: seq<Root>, entries: seq<SavedRoot>)
    requires Copied(was, place, at, roots, |roots|) && entries == Entries(at, roots)
    requires forall i :: 0 <= i < |roots| ==> roots[i].name != MANIFEST
    requires SameOutside(now, was, {place + [MANIFEST]})
    requires Subtree(now, place + [MANIFEST]) == Single(Manifest(entries))
    ensures HoldsRoots(now, place, at, roots)
  {
    var m := place + [MANIFEST];
    SubtreeIs(now, m);
    assert m + [] == m && [] in Subtree(now, m).nodes;
    forall i | 0 <= i < |roots| ensures Named(now, place, roots[i].name) == Subtree(at, roots[i].path) {
      NamedElsewhere(was, now, place, MANIFEST, roots[i].name);
    }
  }

  lemma NewName(layout: Layout, roots: seq<Root>, k: nat)
    requires ValidRoots(layout, roots) && k < |roots|
    ensures !NamedBefore(roots, k, roots[k].name)
  {
  }

  lemma EntriesNext(at: Disk, roots: seq<Root>, k: nat, existed: bool)
    requires k < |roots| && existed == Present(at, roots[k].path)
    ensures Entries(at, roots[..k]) + [SavedRoot(roots[k].name, existed)] == Entries(at, roots[..k+1])
  {
  }

  /** The roots one by one. */
  method CopyRoots(files: Files, layout: Layout, rest: Path, roots: seq<Root>, ghost at: Disk)
    returns (o: Outcome, entries: seq<SavedRoot>)
    requires ValidRoots(layout, roots) && SameOutside(files.at, at, {layout.transactions + rest})
    requires Copied(files.at, layout.transactions + rest, at, roots, 0)
    modifies files
    ensures SameOutside(files.at, at, {layout.transactions + rest})
    ensures o.Done? ==>
              Copied(files.at, layout.transactions + rest, at, roots, |roots|) && entries == Entries(at, roots)
    ensures o.Done? ==> AreReal(at, roots, |roots|)
    ensures files.faults >= old(files.faults) && (o.Crashed? ==> files.faults > old(files.faults))
    ensures !o.Done? ==> files.faults > old(files.faults) || !AreReal(at, roots, |roots|)
  {
    var place := layout.transactions + rest;
    o, entries := Outcome.Done, [];
    for k := 0 to |roots|
      invariant o.Done? && files.faults >= old(files.faults) && entries == Entries(at, roots[..k])
      invariant SameOutside(files.at, at, {place}) && Copied(files.at, place, at, roots, k)
      invariant AreReal(at, roots, k)
    {
      RootsElsewhere(layout, roots, k, rest);
      NewName(layout, roots, k);
      var existed;
      o, existed := CopyRoot(files, place, roots, k, at);
      if !o.Done? { return; }
      EntriesNext(at, roots, k, existed);
      entries := entries + [SavedRoot(roots[k].name, existed)];
    }
    assert roots[..|roots|] == roots;
  }

  method AddManifest(files: Files, layout: Layout, rest: Path, roots: seq<Root>, entries: seq<SavedRoot>,
                     ghost at: Disk)
    returns (o: Outcome)
    requires ValidRoots(layout, roots) && SameOutside(files.at, at, {layout.transactions + rest})
    requires Copied(files.at, layout.transactions + rest, at, roots, |roots|) && entries == Entries(at, roots)
    modifies files
    ensures SameOutside(files.at, at, {layout.transactions + rest})
    ensures o.Done? ==> HoldsRoots(files.at, layout.transactions + rest, at, roots)
    ensures files.faults == if o.Done? then old(files.faults) else old(files.faults) + 1
  {
    var place := layout.transactions + rest;
    ghost var was := files.at;
    forall i | 0 <= i < |roots| ensures roots[i].name != MANIFEST { ManifestIsNoName(layout, roots, i); }
    assert !NamedBefore(roots, |roots|, MANIFEST) && Named(was, place, MANIFEST) == ABSENT;
    o := files.WriteManifest(place + [MANIFEST], entries);
    Within(files.at, was, place, [MANIFEST]);
    SameTwice(files.at, was, at, {place});
    if o.Done? {
      WithManifest(was, files.at, place, at, roots, entries);
    }
  }

  /** A snapshot directory is judged by its content alone. */
  lemma HoldsRootsHere(a: Disk, b: Disk, p: Path, q: Path, at: Disk, roots: seq<Root>)
    requires HoldsRoots(a, p, at, roots) && Subtree(a, p) == Subtree(b, q)
    ensures HoldsRoots(b, q, at, roots)
  {
    SubtreeIs(a, p);
    SubtreeIs(b, q);
    assert [MANIFEST] in Subtree(a, p).nodes <==> p + [MANIFEST] in a.nodes;
    assert [MANIFEST] in Subtree(b, q).nodes <==> q + [MANIFEST] in b.nodes;
    forall i | 0 <= i < |roots| ensures Named(b, q, roots[i].name) == Named(a, p, roots[i].name) {
      SubtreeWithin(a, p, b, q, [roots[i].name]);
    }
  }

  /** The finished snapshot is in place and nothing else has changed. */
  ghost predicate SnapshotMade(now: Disk, at: Disk, layout: Layout, id: string, roots: seq<Root>) {
    SameOutside(now, at, {SnapshotPlace(layout, id)}) && HoldsRoots(now, SnapshotPlace(layout, id), at, roots)
  }

  lemma MovedOutOf(at: Disk, filled: Disk, now: Disk, temporary: Path, place: Path)
    requires SameOutside(filled, at, {temporary}) && !Present(at, temporary) && Moved(filled, now, temporary, place)
    ensures SameOutside(now, at, {place})
  {
    forall k | !Touched(k, {place}) ensures SameAt(now, at, k) {
      assert place in {place};
      if temporary <= k {
        if k in now.nodes { PresentBelow(now, temporary, k); }
        if k in at.nodes { PresentBelow(at, temporary, k); }
      } else {
        assert !Touched(k, {temporary}) && !Touched(k, {temporary, place});
        assert SameAt(now, filled, k) && SameAt(filled, at, k);
      }
    }
  }

  /** The error handler: the temporary directory goes, and with it all that was done. */
  method RemoveTemporary(files: Files, temporary: Path, ghost at: Disk) returns (exit: Exit)
    requires SameOutside(files.at, at, {temporary}) && !Present(at, temporary)
    modifies files
    ensures SameOutside(files.at, at, {temporary})
    ensures exit in {Threw, RollbackBroken, Died} && (exit.Threw? ==> files.at == at)
    ensures files.faults >= old(files.faults) && (!exit.Threw? ==> files.faults > old(files.faults))
  {
    ghost var was := files.at;
    var o := files.Remove(temporary);
    SameTwice(files.at, was, at, {temporary});
    if o.Done? { SameDisk(files.at, at, temporary); }
    exit := match o case Done => Threw case Failed => RollbackBroken case Crashed => Died;
  }

  /** What a snapshot asks of the disk: no snapshot and no temporary directory yet, and real directories as roots. */
  ghost predicate MayTake(at: Disk, layout: Layout, id: string, nonce: string, roots: seq<Root>) {
    && ValidRoots(layout, roots)
    && !Present(at, SnapshotPlace(layout, id)) && !Present(at, TemporaryPlace(layout, id, nonce))
    && AreReal(at, roots, |roots|)
  }

  lemma EmptyIsCopied(now: Disk, place: Path, at: Disk, roots: seq<Root>)
    requires Subtree(now, place) == EMPTY_DIRECTORY
    ensures Copied(now, place, at, roots, 0)
  {
    forall name: string ensures Named(now, place, name) == ABSENT {
      SubtreeAgain(now, place, [name]);
      SubtreeIs(EMPTY_DIRECTORY, [name]);
      forall r ensures r !in Subtree(EMPTY_DIRECTORY, [name]).nodes { assert [name] + r != []; }
    }
  }

  /** The filled temporary directory takes its final name. */
  method RenameIntoPlace(files: Files, layout: Layout, id: string, nonce: string, roots: seq<Root>, ghost at: Disk)
    returns (o: Outcome)
    requires !Present(at, SnapshotPlace(layout, id)) && !Present(at, TemporaryPlace(layout, id, nonce))
    requires SameOutside(files.at, at, {TemporaryPlace(layout, id, nonce)})
    requires HoldsRoots(files.at, TemporaryPlace(layout, id, nonce), at, roots)
    modifies files
    ensures o.Done? ==> SnapshotMade(files.at, at, layout, id, roots)
    ensures o.Failed? ==> files.at == old(files.at)
    ensures files.at == old(files.at) || SnapshotMade(files.at, at, layout, id, roots)
    ensures files.faults >= old(files.faults) && (!o.Done? ==> files.faults > old(files.faults))
  {
    var temporary, place := TemporaryPlace(layout, id, nonce), SnapshotPlace(layout, id);
    ghost var filled := files.at;
    SnapshotsApart(layout, id, nonce);
    Elsewhere(filled, at, {temporary}, place);
    PresentBelow(filled, temporary, temporary + [MANIFEST]);
    o := files.Rename(temporary, place);
    if files.at != filled {
      MovedOutOf(at, filled, files.at, temporary, place);
      HoldsRootsHere(filled, files.at, temporary, place, at, roots);
    }
  }

  /** The try block, in an empty temporary directory. */
  method FillAndRename(files: Files, layout: Layout, id: string, nonce: string, roots: seq<Root>, ghost at: Disk)
    returns (o: Outcome)
    requires ValidRoots(layout, roots)
    requires !Present(at, SnapshotPlace(layout, id)) && !Present(at, TemporaryPlace(layout, id, nonce))
    requires Placed(at, files.at, TemporaryPlace(layout, id, nonce), EMPTY_DIRECTORY)
    modifies files
    ensures o.Done? ==> SnapshotMade(files.at, at, layout, id, roots)
    ensures o.Done? ==> AreReal(at, roots, |roots|)
    ensures o.Failed? ==> SameOutside(files.at, at, {TemporaryPlace(layout, id, nonce)})
    ensures o.Crashed? ==> SameOutside(files.at, at, {TemporaryPlace(layout, id, nonce)})
                           || SnapshotMade(files.at, at, layout, id, roots)
    ensures files.faults >= old(files.faults)
    ensures !o.Done? ==> files.faults > old(files.faults) || !AreReal(at, roots, |roots|)
    ensures o.Crashed? ==> files.faults > old(files.faults)
  {
    var rest := ["snapshots", "." + id + "." + nonce + ".tmp"];
    assert layout.transactions + rest == TemporaryPlace(layout, id, nonce);
    EmptyIsCopied(files.at, TemporaryPlace(layout, id, nonce), at, roots);
    var entries;
    o, entries := CopyRoots(files, layout, rest, roots, at);
    if !o.Done? { return; }
    o := AddManifest(files, layout, rest, roots, entries, at);
    if !o.Done? { return; }
    o := RenameIntoPlace(files, layout, id, nonce, roots, at);
  }

  /** A snapshot is taken, or nothing is left of the attempt but what could not be cleaned up. */
  method CreateDataSnapshot(files: Files, layout: Layout, id: string, nonce: string, roots: seq<Root>)
    returns (exit: Exit)
    modifies files
    ensures exit.Returned? ==> MayTake(old(files.at), layout, id, nonce, roots)
                               && SnapshotMade(files.at, old(files.at), layout, id, roots)
    ensures exit.Threw? ==> files.at == old(files.at)
    ensures exit.RollbackBroken? ==> SameOutside(files.at, old(files.at), {TemporaryPlace(layout, id, nonce)})
    ensures exit.Died? ==> SameOutside(files.at, old(files.at), {TemporaryPlace(layout, id, nonce)})
                           || SnapshotMade(files.at, old(files.at), layout, id, roots)
    ensures files.faults >= old(files.faults)
    ensures files.faults == old(files.faults) ==>
              if MayTake(old(files.at), layout, id, nonce, roots) then exit.Returned? else exit.Threw?
  {
    ghost var at := files.at;
    var valid := ValidateRoots(layout, roots);
    if !valid { return Threw; }
    var place, temporary := SnapshotPlace(layout, id), TemporaryPlace(layout, id, nonce);
    // The directory of the snapshots is made if it is missing.
    var o := files.Environment();
    if !o.Done? { return if o.Crashed? then Died else Threw; }
    var found;
    o, found := files.Status(place);
    if !o.Done? { return if o.Crashed? then Died else Threw; }
    if found.Some? { return Threw; }
    o := files.MakeDirectory(temporary);
    if !o.Done? { return if o.Crashed? then Died else Threw; }
    o := FillAndRename(files, layout, id, nonce, roots, at);
    if o.Done? { return Returned; }
    if o.Crashed? { return Died; }
    exit := RemoveTemporary(files, temporary, at);
  }
}
