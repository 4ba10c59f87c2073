/**
 When a restoration that goes through is right: exactly for which roots, and what taking a snapshot
 and restoring it does together.
 */
module DataRoundTrip {
  import opened Common
  import opened DataTree
  import opened DataSnapshot
  import opened DataRestore

  // ---------------------------------------------------------------- the condition

  /**
   The root can be set aside: not over the snapshot, and not where a later root lies that would then
   have to be set aside itself and cannot.
   */
  predicate MayLeave(spots: seq<Spot>, place: Path, j: nat)
    requires j < |spots|
    decreases |spots| - j
  {
    && !(spots[j].aside <= place)
    && forall i :: j < i < |spots| && spots[i].path == spots[j].aside ==> MayLeave(spots, place, i)
  }

  /** The `i`-th root is, or lies in, the place where an earlier root goes. */
  predicate Endangers(spots: seq<Spot>, place: Path, j: nat, i: nat)
    requires i < |spots|
  {
    j < i && spots[j].aside <= spots[i].path && MayLeave(spots, place, j)
  }

  predicate NoneSetAsideOver(spots: seq<Spot>, place: Path) {
    forall j, i :: 0 <= j < i < |spots| ==> !Endangers(spots, place, j, i)
  }

  // ---------------------------------------------------------------- it is enough

  /** What has been set aside in the place of a later root is there until that root's turn. */
  lemma {:induction false} StaysThere(states: seq<Disk>, spots: seq<Spot>, saved: seq<Tree>, j: nat, i: nat, k: nat)
    requires Laid(spots) && Chain(states, spots, saved) && j < k <= i < |spots| && k < |states|
    requires Had(states, spots, j) && spots[j].aside == spots[i].path
    ensures Present(states[k], spots[i].path)
    decreases k
  {
    assert Linked(states, spots, saved, k - 1) && LaidPair(spots, i, k - 1);
    var was, now, spot := states[k-1], states[k], spots[k-1];
    if k - 1 > j {
      StaysThere(states, spots, saved, j, i, k - 1);
      if !Present(was, spot.path) {
        Elsewhere(now, was, {spot.path}, spots[i].path);
      } else {
        if spot.aside <= spots[i].path { BelowAbsent(was, spot.aside, spots[i].path); }
        Elsewhere(now, was, {spot.path, spot.aside}, spots[i].path);
      }
    }
  }

  /** A root that was set aside could be. */
  lemma HadMayLeave(place: Path, states: seq<Disk>, spots: seq<Spot>, saved: seq<Tree>, j: nat)
    requires Laid(spots) && AllFree(place, spots) && Chain(states, spots, saved) && |states| == |spots| + 1
    requires Present(states[0], place) && j < |spots| && Had(states, spots, j)
    ensures MayLeave(spots, place, j)
    decreases |spots| - j
  {
    ChainKeepsPlace(place, states, spots, saved, j);
    assert Linked(states, spots, saved, j) && FreeOf(place, spots, j);
    PlaceApart(place, spots[j], states[j]);
    forall i | j < i < |spots| && spots[i].path == spots[j].aside ensures MayLeave(spots, place, i) {
      StaysThere(states, spots, saved, j, i, i);
      HadMayLeave(place, states, spots, saved, i);
    }
  }

  lemma NotOver(place: Path, states: seq<Disk>, spots: seq<Spot>, saved: seq<Tree>, i: nat, j: nat)
    requires Laid(spots) && AllFree(place, spots) && Chain(states, spots, saved) && |states| == |spots| + 1
    requires Present(states[0], place) && i < |spots| && j < |spots| && Had(states, spots, j)
    requires NoneSetAsideOver(spots, place) && !(i < j && TakenOver(states, spots, i, j))
    ensures !Overlap(spots[i].path, spots[j].aside)
  {
    assert LaidPair(spots, i, j) && LaidAlone(spots, j);
    if j < i {
      HadMayLeave(place, states, spots, saved, j);
      assert !Endangers(spots, place, j, i);
    }
  }

  /** What a finished restoration leaves at each root is what the snapshot holds. */
  lemma RestoredIsSaved(place: Path, states: seq<Disk>, final: Disk, spots: seq<Spot>, saved: seq<Tree>, i: nat)
    requires Laid(spots) && AllFree(place, spots) && Chain(states, spots, saved) && |states| == |spots| + 1
    requires Present(states[0], place) && Tidied(states[|spots|], final, spots, HadAll(states, spots))
    requires NoneSetAsideOver(spots, place) && i < |spots|
    ensures RestoredAt(final, spots, saved, i)
  {
    var n, moved := |spots|, HadAll(states, spots);
    StandAll(states, spots, saved, n, i);
    if j :| i < j < n && TakenOver(states, spots, i, j) {
      assert Gone(final, spots, moved, j);
      BelowAbsent(final, spots[j].aside, spots[i].path);
    } else {
      forall q | q in Asides(spots, moved) ensures !Overlap(spots[i].path, q) {
        var j :| 0 <= j < n && moved[j] && q == spots[j].aside;
        NotOver(place, states, spots, saved, i, j);
      }
      Elsewhere(final, states[n], Asides(spots, moved), spots[i].path);
    }
  }

  // ---------------------------------------------------------------- it is needed

  /** The last root in the place where an earlier one goes. */
  lemma LastEndangered(spots: seq<Spot>, place: Path) returns (j: nat, i: nat)
    requires !NoneSetAsideOver(spots, place)
    ensures j < i < |spots| && Endangers(spots, place, j, i)
    ensures forall k, l :: 0 <= k < l < |spots| && Endangers(spots, place, k, l) ==> l <= i
  {
    var a, b :| 0 <= a < b < |spots| && Endangers(spots, place, a, b);
    i := |spots| - 1;
    while !exists k :: 0 <= k < i && Endangers(spots, place, k, i)
      invariant b <= i < |spots|
      invariant forall k, l :: 0 <= k < l < |spots| && Endangers(spots, place, k, l) ==> l <= i
      decreases i
    {
      assert Endangers(spots, place, a, b);
      i := i - 1;
    }
    j :| 0 <= j < i && Endangers(spots, place, j, i);
  }

  function With(base: Disk, p: Path): Disk { Tree(base.nodes[p := Directory]) }

  lemma WithIs(base: Disk, p: Path)
    requires !Present(base, p)
    ensures Placed(base, With(base, p), p, EMPTY_DIRECTORY) && NodeAt(With(base, p), p) == Some(Directory)
    ensures SameOutside(base, With(base, p), {p})
  {
    var more := With(base, p);
    SubtreeIs(more, p);
    forall r ensures r in Subtree(more, p).nodes <==> r == [] {
      if p + r in base.nodes { PresentBelow(base, p, p + r); }
      assert p + r == p <==> r == [];
    }
    assert p + [] == p;
    assert Subtree(more, p).nodes == map[[] := Directory];
    forall k | !Touched(k, {p}) ensures SameAt(more, base, k) { assert p in {p}; }
  }

  lemma StillAbsent(base: Disk, p: Path, q: Path)
    requires !Present(base, q) && !(q <= p)
    ensures !Present(With(base, p), q)
  {
    if Present(With(base, p), q) {
      var k := PresentIs(With(base, p), q);
      PresentBelow(base, q, k);
    }
  }

  /** Everything on the disk lies in the snapshot's place. */
  predicate OnlyAt(base: Disk, place: Path) { forall k :: k in base.nodes ==> place <= k }

  lemma NothingElse(base: Disk, place: Path, p: Path)
    requires OnlyAt(base, place) && !Overlap(place, p)
    ensures !Present(base, p)
  {
    if Present(base, p) { var k := PresentIs(base, p); }
  }

  /** Only the `i`-th root was there when the snapshot was taken. */
  function OnlySaved(n: nat, i: nat): (saved: seq<Tree>)
    ensures |saved| == n
  {
    seq(n, k requires 0 <= k < n => if k == i then EMPTY_DIRECTORY else ABSENT)
  }

  /** A root that is absent and was not saved: its turn changes nothing. */
  lemma IdleTurn(at: Disk, spot: Spot)
    requires !Present(at, spot.path)
    ensures Stepped(at, at, spot, ABSENT)
  {
  }

  /** A root that is there, not saved: it goes to its set-aside place. */
  lemma LeavingTurn(base: Disk, spot: Spot)
    requires !Overlap(spot.path, spot.aside) && !Present(base, spot.path) && !Present(base, spot.aside)
    ensures Stepped(With(base, spot.path), With(base, spot.aside), spot, ABSENT)
  {
    var p, b, was, now := spot.path, spot.aside, With(base, spot.path), With(base, spot.aside);
    WithIs(base, p);
    WithIs(base, b);
    StillAbsent(base, p, b);
    StillAbsent(base, b, p);
    Wider(now, base, {b}, {p, b});
    Wider(base, was, {p}, {p, b});
    SameTwice(now, base, was, {p, b});
  }

  /** A root that is absent and was saved: its saved content appears. */
  lemma ArrivingTurn(base: Disk, spot: Spot)
    requires !Present(base, spot.path)
    ensures Stepped(base, With(base, spot.path), spot, EMPTY_DIRECTORY)
  {
    WithIs(base, spot.path);
  }

  /** A root that is there and was saved. */
  lemma ReplacedTurn(base: Disk, spot: Spot)
    requires !Overlap(spot.path, spot.aside) && !Present(base, spot.path) && !Present(base, spot.aside)
    ensures Stepped(With(base, spot.path), With(With(base, spot.aside), spot.path), spot, EMPTY_DIRECTORY)
  {
    var p, b, was, mid := spot.path, spot.aside, With(base, spot.path), With(base, spot.aside);
    var now := With(mid, p);
    LeavingTurn(base, spot);
    WithIs(base, p);
    WithIs(base, b);
    StillAbsent(base, b, p);
    WithIs(mid, p);
    Wider(now, mid, {p}, {p, b});
    SameTwice(now, mid, was, {p, b});
    Elsewhere(now, mid, {p}, b);
  }

  /** The disks of the example: the earlier root, then it set aside, then the later root over it. */
  function ExampleState(base: Disk, spots: seq<Spot>, j: nat, i: nat, k: nat): Disk
    requires j < i < |spots|
  {
    if k <= j then With(base, spots[j].path)
    else if k <= i then With(base, spots[j].aside)
    else if spots[i].path == spots[j].aside then With(With(base, spots[i].aside), spots[i].path)
    else With(With(base, spots[j].aside), spots[i].path)
  }

  function ExampleStates(base: Disk, spots: seq<Spot>, j: nat, i: nat): (states: seq<Disk>)
    requires j < i < |spots|
    ensures |states| == |spots| + 1
  {
    seq(|spots| + 1, k requires 0 <= k <= |spots| => ExampleState(base, spots, j, i, k))
  }

  /** The two roots, and the snapshot clear of them. */
  predicate Example(base: Disk, place: Path, spots: seq<Spot>, j: nat, i: nat) {
    && Laid(spots) && AllFree(place, spots) && OnlyAt(base, place)
    && j < i < |spots| && Endangers(spots, place, j, i)
    && forall k, l :: 0 <= k < l < |spots| && Endangers(spots, place, k, l) ==> l <= i
  }

  /** Neither the two roots nor their places are in the snapshot. */
  lemma ExampleIsFree(base: Disk, place: Path, spots: seq<Spot>, j: nat, i: nat)
    requires Example(base, place, spots, j, i)
    ensures !Present(base, spots[j].path) && !Present(base, spots[j].aside) && !Present(base, spots[i].path)
    ensures spots[i].path == spots[j].aside ==> !Present(base, spots[i].aside)
  {
    assert FreeOf(place, spots, j) && FreeOf(place, spots, i);
    NothingElse(base, place, spots[j].path);
    NothingElse(base, place, spots[i].path);
    NothingElse(base, place, spots[j].aside);
    if spots[i].path == spots[j].aside {
      assert MayLeave(spots, place, i);
      NothingElse(base, place, spots[i].aside);
    }
  }

  lemma LaterIsEndangered(spots: seq<Spot>, place: Path, i: nat, k: nat)
    requires i < k < |spots| && LaidPair(spots, k, i) && spots[k].path <= spots[i].aside && MayLeave(spots, place, i)
    ensures Endangers(spots, place, i, k)
  {
  }

  /** Every other root is absent all the time. */
  lemma OthersAbsent(base: Disk, place: Path, spots: seq<Spot>, j: nat, i: nat, k: nat)
    requires Example(base, place, spots, j, i) && k < |spots| && k != j && k != i
    ensures !Present(ExampleState(base, spots, j, i, k), spots[k].path)
    ensures ExampleState(base, spots, j, i, k) == ExampleState(base, spots, j, i, k + 1)
  {
    var p, b, q := spots[k].path, spots[j].aside, spots[i].path;
    assert FreeOf(place, spots, k) && LaidPair(spots, k, j) && LaidPair(spots, k, i);
    NothingElse(base, place, p);
    if k < j {
      StillAbsent(base, spots[j].path, p);
    } else if k < i || q != b {
      StillAbsent(base, b, p);
      StillAbsent(With(base, b), q, p);
    } else {
      if p <= spots[i].aside {
        LaterIsEndangered(spots, place, i, k);
        assert false;
      }
      StillAbsent(base, spots[i].aside, p);
      StillAbsent(With(base, spots[i].aside), q, p);
    }
  }

  lemma ExampleLinked(base: Disk, place: Path, spots: seq<Spot>, j: nat, i: nat, k: nat)
    requires Example(base, place, spots, j, i) && k < |spots|
    ensures Linked(ExampleStates(base, spots, j, i), spots, OnlySaved(|spots|, i), k)
  {
    ExampleIsFree(base, place, spots, j, i);
    if k == j {
      assert LaidAlone(spots, j);
      LeavingTurn(base, spots[j]);
    } else if k == i {
      assert LaidAlone(spots, i) && LaidPair(spots, i, j);
      if spots[i].path == spots[j].aside {
        ReplacedTurn(base, spots[i]);
      } else {
        StillAbsent(base, spots[j].aside, spots[i].path);
        ArrivingTurn(With(base, spots[j].aside), spots[i]);
      }
    } else {
      OthersAbsent(base, place, spots, j, i, k);
      IdleTurn(ExampleState(base, spots, j, i, k), spots[k]);
    }
  }

  /** In the end only the snapshot is left. */
  lemma ExampleTidied(base: Disk, place: Path, spots: seq<Spot>, j: nat, i: nat)
    requires Example(base, place, spots, j, i)
    ensures var states := ExampleStates(base, spots, j, i);
            Tidied(states[|spots|], base, spots, HadAll(states, spots))
  {
    var states, n := ExampleStates(base, spots, j, i), |spots|;
    var moved, last := HadAll(states, spots), states[n];
    ExampleIsFree(base, place, spots, j, i);
    WithIs(base, spots[j].path);
    WithIs(base, spots[j].aside);
    assert moved[j] && spots[j].aside in Asides(spots, moved);
    if spots[i].path == spots[j].aside { assert moved[i] && spots[i].aside in Asides(spots, moved); }
    forall k | !Touched(k, Asides(spots, moved)) ensures SameAt(base, last, k) {
      assert k != spots[j].aside && k != spots[i].path;
      assert spots[i].path == spots[j].aside ==> k != spots[i].aside;
    }
    forall k | 0 <= k < n ensures Gone(base, spots, moved, k) {
      if k != j && k != i { OthersAbsent(base, place, spots, j, i, k); }
      if k == i && spots[i].path != spots[j].aside {
        assert LaidPair(spots, i, j);
        StillAbsent(base, spots[j].aside, spots[i].path);
      }
    }
  }

  /** The example goes through, and the later root is lost. */
  lemma ExampleRuns(base: Disk, place: Path, spots: seq<Spot>, j: nat, i: nat)
    requires Example(base, place, spots, j, i)
    ensures var states := ExampleStates(base, spots, j, i);
            && Chain(states, spots, OnlySaved(|spots|, i)) && states[0] == With(base, spots[j].path)
            && Tidied(states[|spots|], base, spots, HadAll(states, spots))
            && !AllRestored(base, spots, OnlySaved(|spots|, i))
  {
    var states, saved := ExampleStates(base, spots, j, i), OnlySaved(|spots|, i);
    forall k | 0 <= k < |spots| ensures Linked(states, spots, saved, k) { ExampleLinked(base, place, spots, j, i, k); }
    ExampleTidied(base, place, spots, j, i);
    ExampleIsFree(base, place, spots, j, i);
    assert [] in saved[i].nodes && Subtree(base, spots[i].path) == ABSENT;
    assert !RestoredAt(base, spots, saved, i);
  }

  // ---------------------------------------------------------------- the two together

  /** A restoration that goes through always brings every root back as it was saved. */
  ghost predicate AlwaysRestores(layout: Layout, id: string, roots: seq<Root>) {
    forall states, final :: Restoration(layout, id, roots, states, final) ==>
      AllRestored(final, SpotsOf(roots, id), SavedFor(states[0], layout, id, roots))
  }

  /** The manifest of a snapshot for which only the `i`-th root was there. */
  function ExampleManifest(roots: seq<Root>, i: nat): (manifest: seq<SavedRoot>)
    ensures |manifest| == |roots|
  {
    seq(|roots|, k requires 0 <= k < |roots| => SavedRoot(roots[k].name, k == i))
  }

  function ExampleBase(place: Path, roots: seq<Root>, i: nat): Disk
    requires i < |roots|
  {
    With(Tree(map[place + [MANIFEST] := Manifest(ExampleManifest(roots, i))]), place + [roots[i].name])
  }

  /** The snapshot of the example is accepted, and holds what it should. */
  lemma ExampleAccepted(layout: Layout, id: string, roots: seq<Root>, j: nat, i: nat)
    requires ValidRoots(layout, roots) && j < |roots| && i < |roots|
    ensures var place, spots := SnapshotPlace(layout, id), SpotsOf(roots, id);
            var base := ExampleBase(place, roots, i);
            var at := With(base, spots[j].path);
            && OnlyAt(base, place) && Accepted(at, layout, id, roots)
            && SavedFor(at, layout, id, roots) == OnlySaved(|roots|, i)
  {
    var place, spots := SnapshotPlace(layout, id), SpotsOf(roots, id);
    var m, d, p := place + [MANIFEST], place + [roots[i].name], roots[j].path;
    var bare, base := Tree(map[m := Manifest(ExampleManifest(roots, i))]), ExampleBase(place, roots, i);
    var at := With(base, p);
    ValidAreLaid(layout, roots, id);
    assert FreeOf(place, spots, j);
    ManifestIsNoName(layout, roots, i);
    NamesApart(place, MANIFEST, roots[i].name);
    NothingElse(bare, m, d);
    WithIs(bare, d);
    assert place <= m && place <= d;
    NothingElse(base, place, p);
    WithIs(base, p);
    RootsElsewhere(layout, roots, j, ["snapshots", id, MANIFEST]);
    RootsElsewhere(layout, roots, j, ["snapshots", id, roots[i].name]);
    assert m == layout.transactions + ["snapshots", id, MANIFEST];
    assert d == layout.transactions + ["snapshots", id, roots[i].name];
    assert m != p && m in base.nodes && m in at.nodes;
    Elsewhere(at, base, {p}, d);
    var saved, wanted := SavedFor(at, layout, id, roots), OnlySaved(|roots|, i);
    forall k | 0 <= k < |roots| ensures saved[k] == wanted[k] {
      assert ExampleManifest(roots, i)[k].existed <==> k == i;
    }
    assert saved == wanted;
  }

  /** Roots in the place of an earlier one: a restoration that goes through and loses one. */
  lemma EndangeredIsLost(layout: Layout, id: string, roots: seq<Root>)
    requires ValidRoots(layout, roots) && !NoneSetAsideOver(SpotsOf(roots, id), SnapshotPlace(layout, id))
    ensures !AlwaysRestores(layout, id, roots)
  {
    var place, spots := SnapshotPlace(layout, id), SpotsOf(roots, id);
    ValidAreLaid(layout, roots, id);
    var j, i := LastEndangered(spots, place);
    ExampleAccepted(layout, id, roots, j, i);
    var base := ExampleBase(place, roots, i);
    ExampleRuns(base, place, spots, j, i);
    assert Restoration(layout, id, roots, ExampleStates(base, spots, j, i), base);
  }

  lemma RestorationRestores(layout: Layout, id: string, roots: seq<Root>, states: seq<Disk>, final: Disk)
    requires Restoration(layout, id, roots, states, final)
    requires NoneSetAsideOver(SpotsOf(roots, id), SnapshotPlace(layout, id))
    ensures AllRestored(final, SpotsOf(roots, id), SavedFor(states[0], layout, id, roots))
  {
    var place, spots := SnapshotPlace(layout, id), SpotsOf(roots, id);
    AcceptedIsReadable(states[0], layout, id, roots);
    forall i | 0 <= i < |roots| ensures RestoredAt(final, spots, SavedFor(states[0], layout, id, roots), i) {
      RestoredIsSaved(place, states, final, spots, SavedFor(states[0], layout, id, roots), i);
    }
  }

  /**
   A restoration that goes through always restores, if and only if no root is or lies in the place
   where a root before it is set aside, as far as that root can be set aside at all.
   */
  lemma RestoresExactlyWhenNoneSetAsideOver(layout: Layout, id: string, roots: seq<Root>)
    requires ValidRoots(layout, roots)
    ensures AlwaysRestores(layout, id, roots) <==> NoneSetAsideOver(SpotsOf(roots, id), SnapshotPlace(layout, id))
  {
    var place, spots := SnapshotPlace(layout, id), SpotsOf(roots, id);
    if NoneSetAsideOver(spots, place) {
      forall states, final | Restoration(layout, id, roots, states, final)
        ensures AllRestored(final, spots, SavedFor(states[0], layout, id, roots))
      {
        RestorationRestores(layout, id, roots, states, final);
      }
    } else {
      EndangeredIsLost(layout, id, roots);
    }
  }

  /** Root validation excludes neither a root in a set-aside place nor one below it. */
  lemma NestedRootIsLost(id: string)
    ensures var layout, aside := Layout(["opt"], ["var"]), Aside(["home", "d"], id);
            var roots := [Root("data", ["home", "d"]), Root("more", aside + ["x"])];
            ValidRoots(layout, roots) && !AlwaysRestores(layout, id, roots)
  {
    var layout, aside := Layout(["opt"], ["var"]), Aside(["home", "d"], id);
    var roots := [Root("data", ["home", "d"]), Root("more", aside + ["x"])];
    AsideIsApart(["home", "d"], id);
    assert aside[0] == "home" && |aside| == 2 && |aside[1]| > 1;
    var spots, place := SpotsOf(roots, id), SnapshotPlace(layout, id);
    assert roots[1].path[0] == "home" && roots[1].path[1] == aside[1];
    assert RootAlone(layout, roots[0]) && RootAlone(layout, roots[1]) && PairFine(roots[0], roots[1]);
    assert place[0] == "var";
    assert Endangers(spots, place, 0, 1);
    EndangeredIsLost(layout, id, roots);
  }

  // ---------------------------------------------------------------- snapshot and restoration

  lemma SavedIsHeld(at: Disk, place: Path, before: Disk, roots: seq<Root>, i: nat)
    requires HoldsRoots(at, place, before, roots) && i < |roots|
    ensures SavedTree(at, place, Entries(before, roots)[i]) == Subtree(before, roots[i].path)
  {
    assert EntryOf(before, roots[i]) == Entries(before, roots)[i];
  }

  /** A snapshot, then any changes that leave it alone, then a restoration: every root is as at the snapshot. */
  lemma SnapshotThenRestore(layout: Layout, id: string, roots: seq<Root>, before: Disk, made: Disk,
                            states: seq<Disk>, final: Disk)
    requires SnapshotMade(made, before, layout, id, roots)
    requires 0 < |states| && Subtree(states[0], SnapshotPlace(layout, id)) == Subtree(made, SnapshotPlace(layout, id))
    requires Restoration(layout, id, roots, states, final)
    requires NoneSetAsideOver(SpotsOf(roots, id), SnapshotPlace(layout, id))
    ensures forall i :: 0 <= i < |roots| ==> Subtree(final, roots[i].path) == Subtree(before, roots[i].path)
  {
    var place := SnapshotPlace(layout, id);
    RestorationRestores(layout, id, roots, states, final);
    HoldsRootsHere(made, states[0], place, place, before, roots);
    forall i | 0 <= i < |roots| ensures Subtree(final, roots[i].path) == Subtree(before, roots[i].path) {
      assert RestoredAt(final, SpotsOf(roots, id), SavedFor(states[0], layout, id, roots), i);
      SavedIsHeld(states[0], place, before, roots, i);
    }
  }
}
