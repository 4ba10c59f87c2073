/**
 Restoring the protected data from a snapshot. Every root is set aside and replaced by its saved
 content; if any step fails, all roots are put back.
 */
module DataRestore {
  import opened Common
  import opened DataTree
  import opened DataSnapshot

  // ---------------------------------------------------------------- where roots are set aside

  function Dir(p: Path): Path { if p == [] then [] else p[..|p|-1] }

  function Base(p: Path): string { if p == [] then "" else p[|p|-1] }

  function Aside(p: Path, id: string): Path { Dir(p) + ["." + Base(p) + ".cinba-restore-" + id] }

  lemma AsideIsApart(p: Path, id: string)
    requires p != []
    ensures !Overlap(p, Aside(p, id))
  {
    var n := |p| - 1;
    assert |Aside(p, id)| == |p| && |Aside(p, id)[n]| > |p[n]|;
  }

  lemma BelowDir(p: Path, q: Path, id: string)
    requires |p| < |q| && p <= Aside(q, id)
    ensures p <= q
  {
    assert p == Aside(q, id)[..|p|] == q[..|p|];
  }

  /** Above the place where a root is set aside there is no other root, but it may be one itself. */
  lemma AboveAside(p: Path, q: Path, id: string)
    requires q != [] && !Overlap(p, q) && p <= Aside(q, id)
    ensures p == Aside(q, id)
  {
    if |p| < |q| {
      BelowDir(p, q, id);
      assert false;
    }
  }

  lemma AsideInjective(p: Path, q: Path, id: string)
    requires p != [] && q != [] && Aside(p, id) == Aside(q, id)
    ensures p == q
  {
    var n, suffix := |p| - 1, ".cinba-restore-" + id;
    assert |Aside(p, id)| == |p| && |Aside(q, id)| == |q|;
    assert p[..n] == Aside(p, id)[..n] && q[..n] == Aside(q, id)[..n];
    var a, b := "." + Base(p) + suffix, "." + Base(q) + suffix;
    assert a == Aside(p, id)[n] && b == Aside(q, id)[n];
    assert a[1..|Base(p)|+1] == Base(p) && b[1..|Base(q)|+1] == Base(q);
    assert p == p[..n] + [Base(p)] && q == q[..n] + [Base(q)];
  }

  lemma AsideUnderAside(p: Path, q: Path, id: string)
    requires p != [] && q != [] && p != q && Aside(q, id) <= Aside(p, id)
    ensures Aside(q, id) <= p
  {
    if |q| == |p| {
      assert Aside(q, id) == Aside(p, id)[..|q|] == Aside(p, id);
      AsideInjective(p, q, id);
    } else {
      assert Aside(q, id) == Aside(p, id)[..|q|] == p[..|q|];
    }
  }

  /** A snapshot is not above the place where a root is set aside, though it may lie in it. */
  lemma PlaceNotAboveAside(layout: Layout, root: Root, id: string)
    requires RootAlone(layout, root)
    ensures !(SnapshotPlace(layout, id) <= Aside(root.path, id))
  {
    var t := layout.transactions;
    if SnapshotPlace(layout, id) <= Aside(root.path, id) {
      assert t <= SnapshotPlace(layout, id) <= Aside(root.path, id);
      BelowDir(t, root.path, id);
      assert false;
    }
  }

  /** A root and the place where it is set aside. */
  datatype Spot = Spot(path: Path, aside: Path)

  function SpotOf(root: Root, id: string): Spot { Spot(root.path, Aside(root.path, id)) }

  function SpotsOf(roots: seq<Root>, id: string): (spots: seq<Spot>)
    ensures |spots| == |roots|
  {
    seq(|roots|, i requires 0 <= i < |roots| => SpotOf(roots[i], id))
  }

  predicate TwoSpots(a: Spot, b: Spot) {
    && !Overlap(a.path, b.path)
    && (a.path <= b.aside ==> a.path == b.aside)
    && (b.aside <= a.aside ==> b.aside <= a.path)
  }

  predicate LaidAlone(spots: seq<Spot>, i: nat)
    requires i < |spots|
  {
    !Overlap(spots[i].path, spots[i].aside)
  }

  predicate LaidPair(spots: seq<Spot>, i: nat, j: nat)
    requires i < |spots| && j < |spots|
  {
    i != j ==> TwoSpots(spots[i], spots[j])
  }

  /** How roots and set-aside places can lie to each other. */
  predicate Laid(spots: seq<Spot>) {
    && (forall i :: 0 <= i < |spots| ==> LaidAlone(spots, i))
    && (forall i, j :: 0 <= i < |spots| && 0 <= j < |spots| ==> LaidPair(spots, i, j))
  }

  /** The snapshot is not in a root, and can only lie below a set-aside place. */
  predicate PlaceFree(place: Path, spot: Spot) { !Overlap(place, spot.path) && !(place <= spot.aside) }

  predicate FreeOf(place: Path, spots: seq<Spot>, i: nat)
    requires i < |spots|
  {
    PlaceFree(place, spots[i])
  }

  predicate AllFree(place: Path, spots: seq<Spot>) { forall i :: 0 <= i < |spots| ==> FreeOf(place, spots, i) }

  /** This is how valid roots lie. */
  lemma ValidAreLaid(layout: Layout, roots: seq<Root>, id: string)
    requires ValidRoots(layout, roots)
    ensures Laid(SpotsOf(roots, id)) && AllFree(SnapshotPlace(layout, id), SpotsOf(roots, id))
  {
    var spots := SpotsOf(roots, id);
    forall i | 0 <= i < |roots|
      ensures LaidAlone(spots, i) && FreeOf(SnapshotPlace(layout, id), spots, i)
    {
      assert RootAlone(layout, roots[i]);
      AsideIsApart(roots[i].path, id);
      PlaceNotAboveAside(layout, roots[i], id);
      RootsElsewhere(layout, roots, i, ["snapshots", id]);
    }
    forall i, j | 0 <= i < |roots| && 0 <= j < |roots| && i != j ensures LaidPair(spots, i, j) {
      if i < j { assert PairFine(roots[i], roots[j]); } else { assert PairFine(roots[j], roots[i]); }
      var p, q := roots[i].path, roots[j].path;
      assert RootAlone(layout, roots[i]) && RootAlone(layout, roots[j]);
      if p <= Aside(q, id) { AboveAside(p, q, id); }
      if Aside(q, id) <= Aside(p, id) { AsideUnderAside(p, q, id); }
    }
  }

  // ---------------------------------------------------------------- one root

  ghost predicate StepGoes(at: Disk, spot: Spot) {
    Present(at, spot.path) ==> NodeAt(at, spot.path) == Some(Directory) && !Present(at, spot.aside)
  }

  /** What was in the place of a root is set aside. */
  ghost predicate IsAside(now: Disk, at: Disk, spot: Spot) {
    Subtree(now, spot.aside) == Subtree(at, spot.path)
  }

  /** The root has been set aside, and whatever is in its place now is part of its turn. */
  ghost predicate Begun(was: Disk, now: Disk, spot: Spot) {
    if Present(was, spot.path)
    then SameOutside(now, was, {spot.path, spot.aside}) && IsAside(now, was, spot)
    else SameOutside(now, was, {spot.path})
  }

  /** One root's turn, finished. */
  ghost predicate Stepped(was: Disk, now: Disk, spot: Spot, saved: Tree) {
    StepGoes(was, spot) && Begun(was, now, spot) && Subtree(now, spot.path) == saved
  }

  lemma BegunChanges(was: Disk, now: Disk, spot: Spot)
    requires Begun(was, now, spot)
    ensures SameOutside(now, was, {spot.path, spot.aside})
  {
    if !Present(was, spot.path) { Wider(now, was, {spot.path}, {spot.path, spot.aside}); }
  }

  // ---------------------------------------------------------------- all roots

  ghost predicate Linked(states: seq<Disk>, spots: seq<Spot>, saved: seq<Tree>, i: nat)
    requires i + 1 < |states| && i < |spots| && i < |saved|
  {
    Stepped(states[i], states[i+1], spots[i], saved[i])
  }

  /** The disk before the restoration and after each root's turn so far. */
  ghost predicate Chain(states: seq<Disk>, spots: seq<Spot>, saved: seq<Tree>) {
    && |saved| == |spots| && 0 < |states| <= |spots| + 1
    && forall i :: 0 <= i < |states| - 1 ==> Linked(states, spots, saved, i)
  }

  /** Was the root there when its turn came? */
  ghost predicate Had(states: seq<Disk>, spots: seq<Spot>, i: nat)
    requires i < |states| && i < |spots|
  {
    Present(states[i], spots[i].path)
  }

  /** The root can be set aside, and was there or not. */
  ghost predicate MayTurn(was: Disk, spot: Spot, had: bool) { StepGoes(was, spot) && had == Present(was, spot.path) }

  /** The root's turn has begun. */
  ghost predicate Turned(states: seq<Disk>, spots: seq<Spot>, moved: seq<bool>, i: nat)
    requires i < |states| && i < |spots| && i < |moved|
  {
    MayTurn(states[i], spots[i], moved[i])
  }

  /** The disk is as the first `k` turns left it, but for what the last of them was copying. */
  ghost predicate Reached(now: Disk, states: seq<Disk>, spots: seq<Spot>, k: nat)
    requires k <= |states| && k <= |spots| && 0 < |states|
  {
    if k == 0 then now == states[0] else Begun(states[k-1], now, spots[k-1])
  }

  /** Where the restoration is: `moved` lists the roots whose turn has begun, and whether they were there. */
  ghost predicate Going(now: Disk, states: seq<Disk>, spots: seq<Spot>, saved: seq<Tree>, moved: seq<bool>) {
    && Chain(states, spots, saved) && |moved| <= |states| <= |moved| + 1 && |moved| <= |spots|
    && (forall i :: 0 <= i < |moved| ==> Turned(states, spots, moved, i))
    && (|states| > |moved| ==> now == states[|moved|])
    && Reached(now, states, spots, |moved|)
  }

  // ---------------------------------------------------------------- the snapshot stays readable

  ghost function SavedTree(at: Disk, place: Path, entry: SavedRoot): Tree {
    if entry.existed then Named(at, place, entry.name) else ABSENT
  }

  /** What the manifest says existed is in the snapshot. */
  ghost predicate Complete(at: Disk, place: Path, entry: SavedRoot) {
    entry.existed ==> Named(at, place, entry.name) != ABSENT
  }

  /** The saved content of each root, empty for an absent one. */
  ghost function SavedTrees(at: Disk, place: Path, manifest: seq<SavedRoot>): (saved: seq<Tree>)
    ensures |saved| == |manifest|
  {
    seq(|manifest|, i requires 0 <= i < |manifest| => SavedTree(at, place, manifest[i]))
  }

  /** A root that can be set aside is not set aside over the snapshot. */
  lemma PlaceApart(place: Path, spot: Spot, at: Disk)
    requires PlaceFree(place, spot) && Present(at, place) && !Present(at, spot.aside)
    ensures !Overlap(place, spot.aside)
  {
    if spot.aside <= place {
      var k := PresentIs(at, place);
      PresentBelow(at, spot.aside, k);
    }
  }

  lemma StepKeepsPlace(place: Path, was: Disk, now: Disk, spot: Spot)
    requires PlaceFree(place, spot) && Present(was, place) && StepGoes(was, spot) && Begun(was, now, spot)
    ensures Subtree(now, place) == Subtree(was, place)
  {
    if Present(was, spot.path) {
      PlaceApart(place, spot, was);
      Elsewhere(now, was, {spot.path, spot.aside}, place);
    } else {
      Elsewhere(now, was, {spot.path}, place);
    }
  }

  lemma LinkKeepsPlace(place: Path, states: seq<Disk>, spots: seq<Spot>, saved: seq<Tree>, i: nat)
    requires AllFree(place, spots) && Chain(states, spots, saved) && i + 1 < |states| && Present(states[i], place)
    ensures Subtree(states[i+1], place) == Subtree(states[i], place) && Present(states[i+1], place)
  {
    assert FreeOf(place, spots, i) && Linked(states, spots, saved, i);
    StepKeepsPlace(place, states[i], states[i+1], spots[i]);
    NodeFromSubtree(states[i+1], states[i], place);
  }

  lemma {:induction false} ChainKeepsPlace(place: Path, states: seq<Disk>, spots: seq<Spot>, saved: seq<Tree>, k: nat)
    requires AllFree(place, spots) && Chain(states, spots, saved) && k < |states| && Present(states[0], place)
    ensures Subtree(states[k], place) == Subtree(states[0], place) && Present(states[k], place)
  {
    if k > 0 {
      ChainKeepsPlace(place, states, spots, saved, k - 1);
      LinkKeepsPlace(place, states, spots, saved, k - 1);
    }
  }

  // ---------------------------------------------------------------- nothing is lost

  predicate ClearPair(spots: seq<Spot>, i: nat, j: nat)
    requires i < |spots| && j < |spots|
  {
    !(spots[j].aside <= spots[i].path)
  }

  /** No root is or lies in the place where a root is set aside. */
  predicate Clear(spots: seq<Spot>) {
    forall i, j :: 0 <= i < |spots| && 0 <= j < |spots| ==> ClearPair(spots, i, j)
  }

  /** What a root held before the call is in its place, or set aside. */
  ghost predicate Held(now: Disk, at: Disk, spot: Spot) {
    Present(at, spot.path) ==> Subtree(now, spot.path) == Subtree(at, spot.path) || IsAside(now, at, spot)
  }

  ghost predicate HeldAt(now: Disk, at: Disk, spots: seq<Spot>, i: nat)
    requires i < |spots|
  {
    Held(now, at, spots[i])
  }

  ghost predicate AllHeld(now: Disk, at: Disk, spots: seq<Spot>) {
    forall i :: 0 <= i < |spots| ==> HeldAt(now, at, spots, i)
  }

  ghost predicate WasThere(at: Disk, spots: seq<Spot>, moved: seq<bool>, i: nat)
    requires i < |spots| && i < |moved|
  {
    moved[i] == Present(at, spots[i].path)
  }

  ghost predicate AsideIfMoved(now: Disk, at: Disk, spots: seq<Spot>, moved: seq<bool>, i: nat)
    requires i < |spots| && i < |moved|
  {
    moved[i] ==> IsAside(now, at, spots[i])
  }

  ghost predicate InPlace(now: Disk, at: Disk, spots: seq<Spot>, i: nat)
    requires i < |spots|
  {
    Subtree(now, spots[i].path) == Subtree(at, spots[i].path)
  }

  /** The first roots are set aside, the others untouched. */
  ghost predicate Parked(now: Disk, at: Disk, spots: seq<Spot>, moved: seq<bool>) {
    && |moved| <= |spots|
    && (forall i :: 0 <= i < |moved| ==> WasThere(at, spots, moved, i))
    && (forall i :: 0 <= i < |moved| ==> AsideIfMoved(now, at, spots, moved, i))
    && (forall i :: |moved| <= i < |spots| ==> InPlace(now, at, spots, i))
  }

  /** A change at one root and its set-aside place leaves another root and its place alone. */
  lemma OtherRoot(was: Disk, now: Disk, spots: seq<Spot>, k: nat, i: nat)
    requires Clear(spots) && Laid(spots) && k < |spots| && i < |spots| && i != k
    requires SameOutside(now, was, {spots[k].path, spots[k].aside})
    ensures Subtree(now, spots[i].path) == Subtree(was, spots[i].path)
    ensures Subtree(now, spots[i].aside) == Subtree(was, spots[i].aside)
  {
    assert LaidPair(spots, i, k) && LaidPair(spots, k, i) && ClearPair(spots, i, k) && ClearPair(spots, k, i);
    Elsewhere(now, was, {spots[k].path, spots[k].aside}, spots[i].path);
    Elsewhere(now, was, {spots[k].path, spots[k].aside}, spots[i].aside);
  }

  /** Setting one more root aside. */
  lemma ParkedNext(was: Disk, now: Disk, at: Disk, spots: seq<Spot>, moved: seq<bool>)
    requires Clear(spots) && Laid(spots) && Parked(was, at, spots, moved) && |moved| < |spots|
    requires Begun(was, now, spots[|moved|])
    ensures Parked(now, at, spots, moved + [Present(was, spots[|moved|].path)])
  {
    var k, moved' := |moved|, moved + [Present(was, spots[|moved|].path)];
    BegunChanges(was, now, spots[k]);
    assert InPlace(was, at, spots, k);
    forall i | 0 <= i <= k ensures WasThere(at, spots, moved', i) && AsideIfMoved(now, at, spots, moved', i) {
      if i < k {
        assert WasThere(at, spots, moved, i) && AsideIfMoved(was, at, spots, moved, i);
        OtherRoot(was, now, spots, k, i);
      }
    }
    forall i | k < i < |spots| ensures InPlace(now, at, spots, i) {
      assert InPlace(was, at, spots, i);
      OtherRoot(was, now, spots, k, i);
    }
  }

  /** A change at one root and its set-aside place, with its own content kept, loses nothing. */
  lemma OthersHeld(was: Disk, now: Disk, at: Disk, spots: seq<Spot>, k: nat)
    requires Clear(spots) && Laid(spots) && k < |spots| && AllHeld(was, at, spots)
    requires SameOutside(now, was, {spots[k].path, spots[k].aside}) && Held(now, at, spots[k])
    ensures AllHeld(now, at, spots)
  {
    forall i | 0 <= i < |spots| ensures HeldAt(now, at, spots, i) {
      assert HeldAt(was, at, spots, i);
      if i != k { OtherRoot(was, now, spots, k, i); }
    }
  }

  /** While a root has not been set aside, what it held is what it held before the call. */
  lemma AllHeldNext(was: Disk, now: Disk, at: Disk, spots: seq<Spot>, moved: seq<bool>)
    requires Clear(spots) && Laid(spots) && |moved| < |spots| && Parked(was, at, spots, moved)
             && AllHeld(was, at, spots)
    requires SameOutside(now, was, {spots[|moved|].path, spots[|moved|].aside}) && Held(now, was, spots[|moved|])
    ensures AllHeld(now, at, spots)
  {
    assert InPlace(was, at, spots, |moved|);
    OthersHeld(was, now, at, spots, |moved|);
  }

  // ---------------------------------------------------------------- restoring

  /** What one root's turn can do to the disk. */
  ghost predicate Tried(was: Disk, now: Disk, spot: Spot, saved: Tree, o: Outcome, moved: bool, had: bool) {
    && (o.Done? ==> moved && Stepped(was, now, spot, saved))
    && (moved ==> MayTurn(was, spot, had) && Begun(was, now, spot))
    && (!moved && !o.Crashed? ==> now == was)
    && SameOutside(now, was, {spot.path, spot.aside}) && Held(now, was, spot)
  }

  /** The root has gone to its set-aside place, if it was there. */
  ghost predicate SetAside(was: Disk, now: Disk, spot: Spot) {
    if Present(was, spot.path) then Moved(was, now, spot.path, spot.aside) else now == was
  }

  /** The place where a root is set aside is free, and the root goes there. */
  method MoveAside(files: Files, spot: Spot, place: Path) returns (o: Outcome, had: bool)
    requires PlaceFree(place, spot) && !Overlap(spot.path, spot.aside) && Present(files.at, place)
    modifies files
    ensures o.Done? ==> MayTurn(old(files.at), spot, had)
                        && SetAside(old(files.at), files.at, spot)
                        && Subtree(files.at, place) == Subtree(old(files.at), place)
    ensures o.Failed? ==> files.at == old(files.at)
    ensures files.at == old(files.at) || SetAside(old(files.at), files.at, spot)
    ensures files.faults >= old(files.faults) && (o.Crashed? ==> files.faults > old(files.faults))
    ensures !o.Done? ==> files.faults > old(files.faults) || !StepGoes(old(files.at), spot)
  {
    had := false;
    var current;
    o, current := files.Status(spot.path);
    if !o.Done? || current.None? { return; }
    if !current.value.Directory? { return Outcome.Failed, false; }
    had := true;
    var backup;
    o, backup := files.Status(spot.aside);
    if !o.Done? { return; }
    if backup.Some? { return Outcome.Failed, true; }
    PlaceApart(place, spot, files.at);
    ghost var was := files.at;
    o := files.Rename(spot.path, spot.aside);
    if o.Done? { Elsewhere(files.at, was, {spot.path, spot.aside}, place); }
  }

  /** Whatever of the copy has arrived, the root's turn has begun. */
  lemma Landed(was: Disk, mid: Disk, now: Disk, spot: Spot)
    requires !Overlap(spot.path, spot.aside) && SetAside(was, mid, spot) && SameOutside(now, mid, {spot.path})
    ensures Begun(was, now, spot) && SameOutside(now, was, {spot.path, spot.aside}) && Held(now, was, spot)
  {
    if Present(was, spot.path) {
      Elsewhere(now, mid, {spot.path}, spot.aside);
      Wider(now, mid, {spot.path}, {spot.path, spot.aside});
      SameTwice(now, mid, was, {spot.path, spot.aside});
    }
    BegunChanges(was, now, spot);
  }

  lemma AsideIsFree(was: Disk, mid: Disk, spot: Spot)
    requires SetAside(was, mid, spot)
    ensures !Present(mid, spot.path)
  {
  }

  lemma SavedSame(was: Disk, mid: Disk, place: Path, entry: SavedRoot)
    requires Subtree(mid, place) == Subtree(was, place)
    ensures SavedTree(mid, place, entry) == SavedTree(was, place, entry)
    ensures Complete(was, place, entry) <==> (entry.existed ==> SavedTree(was, place, entry) != ABSENT)
  {
    SubtreeWithin(mid, place, was, place, [entry.name]);
  }

  lemma CopyTried(was: Disk, mid: Disk, now: Disk, spot: Spot, saved: Tree, o: Outcome, had: bool)
    requires !Overlap(spot.path, spot.aside) && SetAside(was, mid, spot) && MayTurn(was, spot, had)
    requires SameOutside(now, mid, {spot.path}) && (o.Done? ==> Subtree(now, spot.path) == saved)
    ensures Tried(was, now, spot, saved, o, true, had)
  {
    Landed(was, mid, now, spot);
  }

  /** A root that did not exist is not copied. */
  method CopyIfSaved(files: Files, source: Path, destination: Path, existed: bool) returns (o: Outcome)
    requires !Present(files.at, destination)
    modifies files
    ensures SameOutside(files.at, old(files.at), {destination})
    ensures o.Done? ==> Subtree(files.at, destination) == if existed then Subtree(old(files.at), source) else ABSENT
    ensures files.faults >= old(files.faults) && (o.Crashed? ==> files.faults > old(files.faults))
    ensures !o.Done? ==> files.faults > old(files.faults) || (existed && Subtree(old(files.at), source) == ABSENT)
  {
    o := Outcome.Done;
    if existed { o := files.CopyTree(source, destination); }
  }

  /** The copy of the saved content, where nothing is any more. */
  method CopySaved(files: Files, spot: Spot, source: Path, existed: bool, ghost was: Disk, ghost saved: Tree,
                   ghost had: bool)
    returns (o: Outcome)
    requires !Overlap(spot.path, spot.aside) && SetAside(was, files.at, spot) && MayTurn(was, spot, had)
    requires saved == if existed then Subtree(files.at, source) else ABSENT
    modifies files
    ensures Tried(was, files.at, spot, saved, o, true, had)
    ensures files.faults >= old(files.faults) && (o.Crashed? ==> files.faults > old(files.faults))
    ensures !o.Done? ==> files.faults > old(files.faults) || (existed && saved == ABSENT)
  {
    ghost var mid := files.at;
    AsideIsFree(was, mid, spot);
    o := CopyIfSaved(files, source, spot.path, existed);
    CopyTried(was, mid, files.at, spot, saved, o, had);
  }

  /** One root: set it aside, copy its saved content in. `moved` tells whether it is to be undone. */
  method RestoreRoot(files: Files, spot: Spot, place: Path, entry: SavedRoot)
    returns (o: Outcome, moved: bool, had: bool)
    requires PlaceFree(place, spot) && !Overlap(spot.path, spot.aside) && Present(files.at, place)
    modifies files
    ensures Tried(old(files.at), files.at, spot, SavedTree(old(files.at), place, entry), o, moved, had)
    ensures files.faults >= old(files.faults) && (o.Crashed? ==> files.faults > old(files.faults))
    ensures !o.Done? ==> files.faults > old(files.faults) || !StepGoes(old(files.at), spot)
                         || !Complete(old(files.at), place, entry)
  {
    ghost var was := files.at;
    moved := false;
    o, had := MoveAside(files, spot, place);
    if !o.Done? {
      if files.at != was { Landed(was, files.at, files.at, spot); }
      return;
    }
    moved := true;
    SavedSame(was, files.at, place, entry);
    o := CopySaved(files, spot, place + [entry.name], entry.existed, was, SavedTree(was, place, entry),
                   had);
  }

  ghost predicate Safe(now: Disk, at: Disk, spots: seq<Spot>, moved: seq<bool>) {
    Clear(spots) ==> Parked(now, at, spots, moved) && AllHeld(now, at, spots)
  }

  lemma ChainNext(states: seq<Disk>, now: Disk, spots: seq<Spot>, saved: seq<Tree>)
    requires Chain(states, spots, saved) && |states| <= |spots|
    requires var k := |states| - 1; Stepped(states[k], now, spots[k], saved[k])
    ensures Chain(states + [now], spots, saved)
  {
    var k := |states| - 1;
    forall i | 0 <= i < |states| ensures Linked(states + [now], spots, saved, i) {
      if i < k { assert Linked(states, spots, saved, i); }
    }
  }

  lemma TurnedNext(states: seq<Disk>, more: seq<Disk>, spots: seq<Spot>, moved: seq<bool>, had: bool, i: nat)
    requires i <= |moved| < |states| && |moved| < |spots|
    requires i < |moved| ==> Turned(states, spots, moved, i)
    requires i == |moved| ==> MayTurn(states[i], spots[i], had)
    ensures Turned(states + more, spots, moved + [had], i)
  {
    assert (states + more)[i] == states[i];
  }

  /** A turn that has begun and not ended. */
  lemma GoingOn(was: Disk, now: Disk, states: seq<Disk>, spots: seq<Spot>, saved: seq<Tree>, moved: seq<bool>,
                had: bool)
    requires |moved| < |spots| && |states| == |moved| + 1 && Going(was, states, spots, saved, moved)
    requires MayTurn(was, spots[|moved|], had) && Begun(was, now, spots[|moved|])
    ensures Going(now, states, spots, saved, moved + [had])
  {
    assert states + [] == states;
    forall i | 0 <= i <= |moved| ensures Turned(states, spots, moved + [had], i) {
      TurnedNext(states, [], spots, moved, had, i);
    }
  }

  /** A turn that has ended. */
  lemma GoingFurther(was: Disk, now: Disk, states: seq<Disk>, spots: seq<Spot>, saved: seq<Tree>, moved: seq<bool>,
                     had: bool)
    requires |moved| < |spots| && |states| == |moved| + 1 && Going(was, states, spots, saved, moved)
    requires MayTurn(was, spots[|moved|], had) && Stepped(was, now, spots[|moved|], saved[|moved|])
    ensures Going(now, states + [now], spots, saved, moved + [had])
  {
    ChainNext(states, now, spots, saved);
    forall i | 0 <= i <= |moved| ensures Turned(states + [now], spots, moved + [had], i) {
      TurnedNext(states, [now], spots, moved, had, i);
    }
  }

  lemma SafeNext(was: Disk, now: Disk, at: Disk, spots: seq<Spot>, saved: Tree, moved: seq<bool>,
                 o: Outcome, pushed: bool, had: bool)
    requires Laid(spots) && |moved| < |spots| && Safe(was, at, spots, moved)
    requires Tried(was, now, spots[|moved|], saved, o, pushed, had) && !o.Crashed?
    ensures Safe(now, at, spots, if pushed then moved + [had] else moved)
  {
    if Clear(spots) {
      AllHeldNext(was, now, at, spots, moved);
      if pushed { ParkedNext(was, now, at, spots, moved); }
    }
  }

  /** The snapshot at the place, for roots that lie clear of it. */
  ghost predicate Readable(at: Disk, place: Path, spots: seq<Spot>, manifest: seq<SavedRoot>) {
    Laid(spots) && AllFree(place, spots) && |manifest| == |spots| && Present(at, place)
  }

  /** What the snapshot is found to hold for a root when its turn comes is what it held at the start. */
  lemma SavedStays(place: Path, states: seq<Disk>, spots: seq<Spot>, manifest: seq<SavedRoot>, k: nat)
    requires 0 < |states| && Readable(states[0], place, spots, manifest) && k < |states| && k < |spots|
    requires Chain(states, spots, SavedTrees(states[0], place, manifest))
    ensures Present(states[k], place)
    ensures SavedTree(states[k], place, manifest[k]) == SavedTrees(states[0], place, manifest)[k]
    ensures Complete(states[k], place, manifest[k]) <==> Complete(states[0], place, manifest[k])
  {
    ChainKeepsPlace(place, states, spots, SavedTrees(states[0], place, manifest), k);
    SubtreeWithin(states[k], place, states[0], place, [manifest[k].name]);
  }

  method RestoreNext(files: Files, spots: seq<Spot>, place: Path, manifest: seq<SavedRoot>, moved: seq<bool>,
                     ghost states: seq<Disk>, ghost saved: seq<Tree>)
    returns (o: Outcome, moved': seq<bool>, ghost states': seq<Disk>)
    requires |moved| < |spots| && |states| == |moved| + 1
    requires Readable(states[0], place, spots, manifest) && saved == SavedTrees(states[0], place, manifest)
    requires Going(files.at, states, spots, saved, moved) && Safe(files.at, states[0], spots, moved)
    modifies files
    ensures states' == if o.Done? then states + [files.at] else states
    ensures o.Done? ==> |moved'| == |moved| + 1
    ensures !o.Crashed? ==> Going(files.at, states', spots, saved, moved') && Safe(files.at, states[0], spots, moved')
    ensures !o.Done? ==> files.faults > old(files.faults) || !StepGoes(states[|moved|], spots[|moved|])
                         || !Complete(states[0], place, manifest[|moved|])
    ensures Clear(spots) ==> AllHeld(files.at, states[0], spots)
    ensures files.faults >= old(files.faults)
    ensures o.Crashed? ==> files.faults > old(files.faults)
  {
    ghost var was := files.at;
    var k := |moved|;
    SavedStays(place, states, spots, manifest, k);
    assert FreeOf(place, spots, k) && LaidAlone(spots, k);
    var pushed, had;
    o, pushed, had := RestoreRoot(files, spots[k], place, manifest[k]);
    moved' := if pushed then moved + [had] else moved;
    states' := if o.Done? then states + [files.at] else states;
    if o.Crashed? {
      if Clear(spots) { AllHeldNext(was, files.at, states[0], spots, moved); }
    } else {
      if o.Done? {
        GoingFurther(was, files.at, states, spots, saved, moved, had);
      } else if pushed {
        GoingOn(was, files.at, states, spots, saved, moved, had);
      }
      SafeNext(was, files.at, states[0], spots, saved[k], moved, o, pushed, had);
    }
  }

  /** The restoration cannot go on: a root cannot be set aside, or its saved content is missing. */
  ghost predicate Stuck(states: seq<Disk>, spots: seq<Spot>, place: Path, manifest: seq<SavedRoot>)
    requires 0 < |states| && |manifest| == |spots|
  {
    var k := |states| - 1;
    k < |spots| && (!StepGoes(states[k], spots[k]) || !Complete(states[0], place, manifest[k]))
  }

  /** The try block, root by root. */
  method RestoreRoots(files: Files, spots: seq<Spot>, place: Path, manifest: seq<SavedRoot>)
    returns (o: Outcome, moved: seq<bool>, ghost states: seq<Disk>)
    requires Readable(files.at, place, spots, manifest)
    modifies files
    ensures |states| > 0 && states[0] == old(files.at)
    ensures Chain(states, spots, SavedTrees(old(files.at), place, manifest))
    ensures o.Done? ==> |moved| == |spots| && |states| == |spots| + 1
    ensures !o.Crashed? ==> Going(files.at, states, spots, SavedTrees(old(files.at), place, manifest), moved)
                            && Safe(files.at, states[0], spots, moved)
    ensures !o.Done? ==> files.faults > old(files.faults) || Stuck(states, spots, place, manifest)
    ensures Clear(spots) ==> AllHeld(files.at, old(files.at), spots)
    ensures files.faults >= old(files.faults) && (o.Crashed? ==> files.faults > old(files.faults))
  {
    ghost var saved := SavedTrees(files.at, place, manifest);
    moved, states, o := [], [files.at], Outcome.Done;
    while |moved| < |spots|
      invariant o.Done? && |moved| <= |spots| && |states| == |moved| + 1 && states[0] == old(files.at)
      invariant files.faults >= old(files.faults)
      invariant Going(files.at, states, spots, saved, moved) && Safe(files.at, states[0], spots, moved)
    {
      o, moved, states := RestoreNext(files, spots, place, manifest, moved, states, saved);
      if !o.Done? { return; }
    }
  }

  // ---------------------------------------------------------------- undoing

  lemma ClearedIsBefore(was: Disk, now: Disk, cleared: Disk, spot: Spot)
    requires !Overlap(spot.path, spot.aside) && Begun(was, now, spot)
    requires SameOutside(cleared, now, {spot.path}) && !Present(cleared, spot.path)
    ensures !Present(was, spot.path) ==> cleared == was
    ensures Present(was, spot.path) ==>
              IsAside(cleared, was, spot) && SameOutside(cleared, was, {spot.path, spot.aside})
  {
    var p, b := spot.path, spot.aside;
    if Present(was, p) {
      Elsewhere(cleared, now, {p}, b);
      Wider(cleared, now, {p}, {p, b});
      SameTwice(cleared, now, was, {p, b});
    } else {
      SameTwice(cleared, now, was, {p});
      SameDisk(cleared, was, p);
    }
  }

  /** Undoing a root's turn gives back the disk before it, also when its copy stopped half-way. */
  lemma UndoneIsBefore(was: Disk, cleared: Disk, undone: Disk, spot: Spot)
    requires !Overlap(spot.path, spot.aside) && StepGoes(was, spot) && Present(was, spot.path)
    requires IsAside(cleared, was, spot) && SameOutside(cleared, was, {spot.path, spot.aside})
    requires Moved(cleared, undone, spot.aside, spot.path)
    ensures undone == was
  {
    var p, b := spot.path, spot.aside;
    forall k | !Touched(k, {p}) ensures SameAt(undone, was, k) {
      assert p in {p};
      if b <= k {
        if k in undone.nodes { PresentBelow(undone, b, k); }
        if k in was.nodes { PresentBelow(was, b, k); }
      } else {
        assert !Touched(k, {p, b}) && !Touched(k, {b, p});
        assert SameAt(undone, cleared, k) && SameAt(cleared, was, k);
      }
    }
    SameDisk(undone, was, p);
  }

  /** Put one root back. `clean` tells that the disk is as its turn left it. */
  method UndoRoot(files: Files, spot: Spot, had: bool, ghost was: Disk, ghost clean: bool) returns (o: Outcome)
    requires !Overlap(spot.path, spot.aside)
    requires clean ==> MayTurn(was, spot, had) && Begun(was, files.at, spot)
    modifies files
    ensures clean && o.Done? ==> files.at == was
    ensures SameOutside(files.at, old(files.at), {spot.path, spot.aside})
    ensures had ==> Subtree(files.at, spot.path) == Subtree(old(files.at), spot.aside)
                    || Subtree(files.at, spot.aside) == Subtree(old(files.at), spot.aside)
    ensures files.faults >= old(files.faults) && (clean && !o.Done? ==> files.faults > old(files.faults))
  {
    ghost var p, b, now := spot.path, spot.aside, files.at;
    o := files.Remove(spot.path);
    ghost var cleared := files.at;
    Elsewhere(cleared, now, {p}, b);
    Wider(cleared, now, {p}, {p, b});
    if !o.Done? { return; }
    if clean { ClearedIsBefore(was, now, cleared, spot); }
    if !had { return; }
    o := files.Rename(spot.aside, spot.path);
    if files.at != cleared {
      assert {b, p} == {p, b};
      SameTwice(files.at, cleared, now, {p, b});
      if clean { UndoneIsBefore(was, cleared, files.at, spot); }
    }
  }

  /** What the error handler relies on for the roots it has not come to yet. */
  ghost predicate Undoing(now: Disk, at: Disk, spots: seq<Spot>, moved: seq<bool>, k: nat)
    requires k <= |moved| <= |spots|
  {
    Clear(spots) ==>
      && AllHeld(now, at, spots)
      && (forall i :: 0 <= i < |moved| ==> WasThere(at, spots, moved, i))
      && (forall i :: 0 <= i < k ==> AsideIfMoved(now, at, spots, moved, i))
  }

  lemma UndoingNext(was: Disk, now: Disk, at: Disk, spots: seq<Spot>, moved: seq<bool>, k: nat)
    requires Laid(spots) && k < |moved| <= |spots| && Undoing(was, at, spots, moved, k + 1)
    requires SameOutside(now, was, {spots[k].path, spots[k].aside})
    requires moved[k] ==> Subtree(now, spots[k].path) == Subtree(was, spots[k].aside)
                          || Subtree(now, spots[k].aside) == Subtree(was, spots[k].aside)
    ensures Undoing(now, at, spots, moved, k)
  {
    if Clear(spots) {
      assert WasThere(at, spots, moved, k) && AsideIfMoved(was, at, spots, moved, k);
      assert Held(now, at, spots[k]);
      OthersHeld(was, now, at, spots, k);
      forall i | 0 <= i < k ensures AsideIfMoved(now, at, spots, moved, i) {
        assert AsideIfMoved(was, at, spots, moved, i);
        OtherRoot(was, now, spots, k, i);
      }
    }
  }

  lemma ReachedBefore(now: Disk, states: seq<Disk>, spots: seq<Spot>, saved: seq<Tree>, k: nat)
    requires Chain(states, spots, saved) && k < |states| && now == states[k]
    ensures Reached(now, states, spots, k)
  {
    if k > 0 { assert Linked(states, spots, saved, k - 1); }
  }

  /** The turns from the `k`-th on are undone, all of them if `clean`. */
  ghost predicate UndoneTo(now: Disk, states: seq<Disk>, spots: seq<Spot>, moved: seq<bool>, k: nat, clean: bool)
    requires k <= |moved| <= |states| && |moved| <= |spots| && 0 < |states|
  {
    (clean ==> Reached(now, states, spots, k)) && Undoing(now, states[0], spots, moved, k)
  }

  /** Back from the `n`-th turn to the one before it. */
  method UndoNext(files: Files, spots: seq<Spot>, moved: seq<bool>, n: nat, ghost saved: seq<Tree>,
                  ghost states: seq<Disk>, ghost clean: bool)
    returns (o: Outcome)
    requires Chain(states, spots, saved) && Laid(spots) && 0 < n <= |moved| <= |spots| && |moved| <= |states|
    requires Turned(states, spots, moved, n - 1) && UndoneTo(files.at, states, spots, moved, n, clean)
    modifies files
    ensures UndoneTo(files.at, states, spots, moved, n - 1, clean && o.Done?)
    ensures files.faults >= old(files.faults) && (clean && !o.Done? ==> files.faults > old(files.faults))
  {
    ghost var now := files.at;
    assert LaidAlone(spots, n - 1);
    o := UndoRoot(files, spots[n-1], moved[n-1], states[n-1], clean);
    UndoingNext(now, files.at, states[0], spots, moved, n - 1);
    if clean && o.Done? { ReachedBefore(files.at, states, spots, saved, n - 1); }
  }

  lemma MayUndo(now: Disk, states: seq<Disk>, spots: seq<Spot>, saved: seq<Tree>, moved: seq<bool>)
    requires Going(now, states, spots, saved, moved) && Safe(now, states[0], spots, moved)
    ensures UndoneTo(now, states, spots, moved, |moved|, true)
  {
  }

  /** Back from the last turn to the first, going on when a root cannot be put back. */
  method UndoTurns(files: Files, spots: seq<Spot>, moved: seq<bool>, ghost saved: seq<Tree>, ghost states: seq<Disk>)
    returns (o: Outcome, ghost k: nat)
    requires Laid(spots) && Chain(states, spots, saved) && |moved| <= |states| && |moved| <= |spots|
    requires forall i :: 0 <= i < |moved| ==> Turned(states, spots, moved, i)
    requires UndoneTo(files.at, states, spots, moved, |moved|, true)
    modifies files
    ensures k <= |moved| && UndoneTo(files.at, states, spots, moved, k, o.Done?) && (o.Done? ==> k == 0)
    ensures files.faults >= old(files.faults) && (!o.Done? ==> files.faults > old(files.faults))
  {
    o, k := Outcome.Done, |moved|;
    ghost var clean := true;
    var n := |moved|;
    while n > 0
      invariant n == k <= |moved| && files.faults >= old(files.faults)
                && (!o.Done? ==> files.faults > old(files.faults))
      invariant clean == o.Done? && UndoneTo(files.at, states, spots, moved, k, clean)
    {
      assert Turned(states, spots, moved, n - 1);
      var undone := UndoNext(files, spots, moved, n, saved, states, clean);
      n, k, clean := n - 1, k - 1, clean && undone.Done?;
      if undone.Crashed? { return undone, k; }
      if undone.Failed? { o := undone; }
    }
  }

  lemma AllUndone(now: Disk, states: seq<Disk>, spots: seq<Spot>, moved: seq<bool>, k: nat, clean: bool)
    requires k <= |moved| <= |states| && |moved| <= |spots| && 0 < |states|
    requires UndoneTo(now, states, spots, moved, k, clean)
    ensures clean && k == 0 ==> now == states[0]
    ensures Clear(spots) ==> AllHeld(now, states[0], spots)
  {
  }

  /** The error handler: put the roots back, last first. */
  method UndoRoots(files: Files, spots: seq<Spot>, moved: seq<bool>, ghost saved: seq<Tree>, ghost states: seq<Disk>)
    returns (o: Outcome)
    requires Laid(spots) && Going(files.at, states, spots, saved, moved) && Safe(files.at, states[0], spots, moved)
    modifies files
    ensures o.Done? ==> files.at == states[0]
    ensures Clear(spots) ==> AllHeld(files.at, states[0], spots)
    ensures files.faults >= old(files.faults) && (!o.Done? ==> files.faults > old(files.faults))
  {
    MayUndo(files.at, states, spots, saved, moved);
    ghost var k;
    o, k := UndoTurns(files, spots, moved, saved, states);
    AllUndone(files.at, states, spots, moved, k, o.Done?);
  }

  // ---------------------------------------------------------------- the whole restoration

  /** Which roots were there. */
  ghost function HadAll(states: seq<Disk>, spots: seq<Spot>): (moved: seq<bool>)
    requires |states| == |spots| + 1
    ensures |moved| == |spots|
  {
    seq(|spots|, i requires 0 <= i < |spots| => Had(states, spots, i))
  }

  /** Where roots were set aside. */
  function Asides(spots: seq<Spot>, moved: seq<bool>): set<Path>
    requires |moved| <= |spots|
  {
    set i | 0 <= i < |moved| && moved[i] :: spots[i].aside
  }

  ghost predicate Gone(at: Disk, spots: seq<Spot>, moved: seq<bool>, i: nat)
    requires i < |moved| <= |spots|
  {
    moved[i] ==> !Present(at, spots[i].aside)
  }

  /** What was set aside is gone, and nothing else has changed. */
  ghost predicate Tidied(was: Disk, now: Disk, spots: seq<Spot>, moved: seq<bool>)
    requires |moved| <= |spots|
  {
    SameOutside(now, was, Asides(spots, moved)) && forall i :: 0 <= i < |moved| ==> Gone(now, spots, moved, i)
  }

  ghost predicate RestoredAt(at: Disk, spots: seq<Spot>, saved: seq<Tree>, i: nat)
    requires i < |spots| == |saved|
  {
    Subtree(at, spots[i].path) == saved[i]
  }

  ghost predicate AllRestored(at: Disk, spots: seq<Spot>, saved: seq<Tree>)
    requires |spots| == |saved|
  {
    forall i :: 0 <= i < |spots| ==> RestoredAt(at, spots, saved, i)
  }

  /** Removing leaves nothing below what is gone. */
  lemma StaysGone(was: Disk, now: Disk, p: Path)
    requires !Present(was, p) && forall k :: k in now.nodes ==> k in was.nodes
    ensures !Present(now, p)
  {
    if Present(now, p) {
      var k := PresentIs(now, p);
      PresentBelow(was, p, k);
    }
  }

  /** Only what was set aside is removed. */
  method RemoveAsides(files: Files, spots: seq<Spot>, moved: seq<bool>) returns (o: Outcome)
    requires |moved| <= |spots|
    modifies files
    ensures o.Done? ==> Tidied(old(files.at), files.at, spots, moved)
    ensures SameOutside(files.at, old(files.at), Asides(spots, moved))
    ensures files.faults >= old(files.faults) && (!o.Done? ==> files.faults > old(files.faults))
  {
    o := Outcome.Done;
    ghost var places := Asides(spots, moved);
    for k := 0 to |moved|
      invariant o.Done? && files.faults >= old(files.faults)
      invariant SameOutside(files.at, old(files.at), places)
      invariant forall i :: 0 <= i < k ==> Gone(files.at, spots, moved, i)
    {
      if moved[k] {
        ghost var was := files.at;
        o := files.Remove(spots[k].aside);
        assert spots[k].aside in places;
        Wider(files.at, was, {spots[k].aside}, places);
        SameTwice(files.at, was, old(files.at), places);
        if !o.Done? { return; }
        forall i | 0 <= i <= k ensures Gone(files.at, spots, moved, i) {
          if i < k && moved[i] {
            assert Gone(was, spots, moved, i);
            StaysGone(was, files.at, spots[i].aside);
          }
        }
      }
    }
  }

  /** A later root was set aside over an earlier one. */
  ghost predicate TakenOver(states: seq<Disk>, spots: seq<Spot>, i: nat, j: nat)
    requires j < |states| && j < |spots| && i < |spots|
  {
    Had(states, spots, j) && spots[j].aside <= spots[i].path
  }

  ghost predicate StandsAt(states: seq<Disk>, spots: seq<Spot>, saved: seq<Tree>, k: nat, i: nat)
    requires i < k < |states| <= |spots| + 1 && |saved| == |spots|
  {
    if exists j :: i < j < k && TakenOver(states, spots, i, j)
    then saved[i] == ABSENT
    else RestoredAt(states[k], spots, saved, i)
  }

  lemma BelowAbsent(at: Disk, p: Path, q: Path)
    requires !Present(at, p) && p <= q
    ensures Subtree(at, q) == ABSENT
  {
    if Present(at, q) {
      var k := PresentIs(at, q);
      PresentBelow(at, p, k);
    }
  }

  /** One more turn leaves an earlier root standing, or takes over the place of one that was not saved. */
  lemma TurnLeaves(was: Disk, now: Disk, spots: seq<Spot>, saved: seq<Tree>, k: nat, i: nat)
    requires Laid(spots) && |saved| == |spots| && i < k < |spots| && Stepped(was, now, spots[k], saved[k])
    requires RestoredAt(was, spots, saved, i)
    ensures if Present(was, spots[k].path) && spots[k].aside <= spots[i].path
            then saved[i] == ABSENT else RestoredAt(now, spots, saved, i)
  {
    assert LaidPair(spots, i, k);
    if !Present(was, spots[k].path) {
      Elsewhere(now, was, {spots[k].path}, spots[i].path);
    } else if spots[k].aside <= spots[i].path {
      BelowAbsent(was, spots[k].aside, spots[i].path);
    } else {
      Elsewhere(now, was, {spots[k].path, spots[k].aside}, spots[i].path);
    }
  }

  lemma StandsAtNext(states: seq<Disk>, spots: seq<Spot>, saved: seq<Tree>, k: nat, i: nat)
    requires Laid(spots) && Chain(states, spots, saved) && i <= k && k + 1 < |states|
    requires i < k ==> StandsAt(states, spots, saved, k, i)
    ensures StandsAt(states, spots, saved, k + 1, i)
  {
    assert Linked(states, spots, saved, k);
    if i < k {
      if j :| i < j < k && TakenOver(states, spots, i, j) {
        assert i < j < k + 1;
      } else {
        TurnLeaves(states[k], states[k+1], spots, saved, k, i);
        assert TakenOver(states, spots, i, k) <==> Present(states[k], spots[k].path) && spots[k].aside <= spots[i].path;
      }
    }
  }

  lemma {:induction false} StandAll(states: seq<Disk>, spots: seq<Spot>, saved: seq<Tree>, k: nat, i: nat)
    requires Laid(spots) && Chain(states, spots, saved) && i < k < |states|
    ensures StandsAt(states, spots, saved, k, i)
    decreases k
  {
    if i + 1 < k { StandAll(states, spots, saved, k - 1, i); }
    StandsAtNext(states, spots, saved, k - 1, i);
  }

  /** With clear roots, every root has its saved content when the last turn has ended, and keeps it. */
  lemma ClearRestores(states: seq<Disk>, now: Disk, spots: seq<Spot>, saved: seq<Tree>, moved: seq<bool>)
    requires Laid(spots) && Clear(spots) && Chain(states, spots, saved) && |states| == |spots| + 1
    requires |moved| == |spots| && SameOutside(now, states[|spots|], Asides(spots, moved))
    ensures AllRestored(now, spots, saved)
  {
    var n := |spots|;
    forall i | 0 <= i < n ensures RestoredAt(now, spots, saved, i) {
      StandAll(states, spots, saved, n, i);
      forall j | i < j < n ensures !TakenOver(states, spots, i, j) { assert ClearPair(spots, i, j); }
      forall q | q in Asides(spots, moved) ensures !Overlap(spots[i].path, q) {
        var j :| 0 <= j < n && q == spots[j].aside;
        assert ClearPair(spots, i, j) && LaidPair(spots, i, j) && LaidAlone(spots, j);
      }
      Elsewhere(now, states[n], Asides(spots, moved), spots[i].path);
    }
  }

  /** The roots stand; what was set aside goes. */
  method Finish(files: Files, spots: seq<Spot>, moved: seq<bool>, ghost saved: seq<Tree>, ghost states: seq<Disk>)
    returns (exit: Exit)
    requires Laid(spots) && |moved| == |spots| && |states| == |spots| + 1
    requires Going(files.at, states, spots, saved, moved)
    modifies files
    ensures moved == HadAll(states, spots)
    ensures exit.Returned? ==> Tidied(states[|spots|], files.at, spots, moved)
    ensures Clear(spots) ==> AllRestored(files.at, spots, saved)
    ensures !exit.RollbackBroken?
    ensures files.faults >= old(files.faults) && (!exit.Returned? ==> files.faults > old(files.faults))
  {
    forall i | 0 <= i < |spots| ensures moved[i] == HadAll(states, spots)[i] { assert Turned(states, spots, moved, i); }
    var o := RemoveAsides(files, spots, moved);
    if Clear(spots) { ClearRestores(states, files.at, spots, saved, moved); }
    exit := match o case Done => Returned case Failed => Threw case Crashed => Died;
  }

  predicate Matching(roots: seq<Root>, manifest: seq<SavedRoot>) {
    |manifest| == |roots| && forall i :: 0 <= i < |roots| ==> manifest[i].name == roots[i].name
  }

  /** A snapshot that fits the roots. */
  predicate Accepted(at: Disk, layout: Layout, id: string, roots: seq<Root>) {
    && ValidRoots(layout, roots)
    && var manifest := ReadManifest(at, SnapshotPlace(layout, id));
       manifest.Some? && Matching(roots, manifest.value)
  }

  /** The saved content of a snapshot that fits the roots. */
  ghost function SavedFor(at: Disk, layout: Layout, id: string, roots: seq<Root>): (saved: seq<Tree>)
    requires Accepted(at, layout, id, roots)
    ensures |saved| == |roots|
  {
    SavedTrees(at, SnapshotPlace(layout, id), ReadManifest(at, SnapshotPlace(layout, id)).value)
  }

  lemma AcceptedIsReadable(at: Disk, layout: Layout, id: string, roots: seq<Root>)
    requires Accepted(at, layout, id, roots)
    ensures var place := SnapshotPlace(layout, id);
            Readable(at, place, SpotsOf(roots, id), ReadManifest(at, place).value)
  {
    ValidAreLaid(layout, roots, id);
    PresentBelow(at, SnapshotPlace(layout, id), SnapshotPlace(layout, id) + [MANIFEST]);
  }

  /** A restoration that goes through: the disks after each root's turn, and the disk in the end. */
  ghost predicate Restoration(layout: Layout, id: string, roots: seq<Root>, states: seq<Disk>, final: Disk) {
    && |states| == |roots| + 1 && Accepted(states[0], layout, id, roots)
    && Chain(states, SpotsOf(roots, id), SavedFor(states[0], layout, id, roots))
    && Tidied(states[|roots|], final, SpotsOf(roots, id), HadAll(states, SpotsOf(roots, id)))
  }

  /** With an accepted snapshot. */
  method RestoreAccepted(files: Files, spots: seq<Spot>, place: Path, manifest: seq<SavedRoot>)
    returns (exit: Exit, restored: bool, ghost states: seq<Disk>)
    requires Readable(files.at, place, spots, manifest)
    modifies files
    ensures |states| > 0 && states[0] == old(files.at)
    ensures Chain(states, spots, SavedTrees(old(files.at), place, manifest))
    ensures exit.Returned? ==> restored && |states| == |spots| + 1
                               && Tidied(states[|spots|], files.at, spots, HadAll(states, spots))
    ensures restored && Clear(spots) ==> AllRestored(files.at, spots, SavedTrees(old(files.at), place, manifest))
    ensures exit.Threw? && !restored ==> files.at == old(files.at)
    ensures !restored && Clear(spots) ==> AllHeld(files.at, old(files.at), spots)
    ensures files.faults >= old(files.faults)
    ensures files.faults == old(files.faults) ==>
              exit.Returned? || (exit.Threw? && !restored && Stuck(states, spots, place, manifest))
  {
    restored := false;
    ghost var saved := SavedTrees(files.at, place, manifest);
    var o, moved;
    o, moved, states := RestoreRoots(files, spots, place, manifest);
    if o.Crashed? { return Died, false, states; }
    if o.Failed? {
      o := UndoRoots(files, spots, moved, saved, states);
      return match o case Done => Threw case Failed => RollbackBroken case Crashed => Died, false, states;
    }
    restored := true;
    exit := Finish(files, spots, moved, saved, states);
  }

  /**
   All roots get their saved content, or all are put back. `restored` tells whether the saved
   content was in place before the call ended, `states` are the disks after each root's turn.
   */
  method RestoreDataSnapshot(files: Files, layout: Layout, id: string, roots: seq<Root>)
    returns (exit: Exit, restored: bool, ghost states: seq<Disk>)
    modifies files
    ensures exit.Returned? || restored ==> Accepted(old(files.at), layout, id, roots)
    ensures exit.Returned? ==>
              restored && Restoration(layout, id, roots, states, files.at) && states[0] == old(files.at)
    ensures restored && Clear(SpotsOf(roots, id)) ==>
              AllRestored(files.at, SpotsOf(roots, id), SavedFor(old(files.at), layout, id, roots))
    ensures exit.Threw? && !restored ==> files.at == old(files.at)
    ensures !restored && Clear(SpotsOf(roots, id)) ==> AllHeld(files.at, old(files.at), SpotsOf(roots, id))
    ensures files.faults >= old(files.faults)
    ensures files.faults == old(files.faults) && !Accepted(old(files.at), layout, id, roots) ==> exit.Threw?
    ensures files.faults == old(files.faults) && Accepted(old(files.at), layout, id, roots) ==>
              var place, spots := SnapshotPlace(layout, id), SpotsOf(roots, id);
              var manifest := ReadManifest(old(files.at), place).value;
              && |states| > 0 && states[0] == old(files.at)
              && Chain(states, spots, SavedFor(old(files.at), layout, id, roots))
              && (exit.Returned? || (exit.Threw? && !restored && Stuck(states, spots, place, manifest)))
  {
    states := [];
    var valid := ValidateRoots(layout, roots);
    if !valid { return Threw, false, []; }
    var o := files.Environment();
    if !o.Done? { return if o.Crashed? then Died else Threw, false, []; }
    var place := SnapshotPlace(layout, id);
    var manifest := ReadManifest(files.at, place);
    if manifest.None? || !Matching(roots, manifest.value) { return Threw, false, []; }
    AcceptedIsReadable(files.at, layout, id, roots);
    exit, restored, states := RestoreAccepted(files, SpotsOf(roots, id), place, manifest.value);
  }
}
