/**
 The files an installation puts at fixed places, launcher and Desktop application. Each is replaced
 through a staged copy and a backup beside it; both are replaced, or neither.
 */
module StableFiles {
  import opened Common
  import opened FileStore

  datatype Mode = Create | Replace

  function StagedOf(d: Path): Path { Path(d.parent, "." + d.name + ".cinba-new") }

  function BackupOf(d: Path): Path { Path(d.parent, "." + d.name + ".cinba-old") }

  function Spots(d: Path): set<Path> { {d, StagedOf(d), BackupOf(d)} }

  /** A destination and the two paths beside it are three paths. */
  lemma SpotsDiffer(d: Path)
    ensures d != StagedOf(d) && d != BackupOf(d) && StagedOf(d) != BackupOf(d)
  {
    assert |StagedOf(d).name| == |d.name| + 11 && |BackupOf(d).name| == |d.name| + 11;
    assert StagedOf(d).name[|d.name| + 8] == 'n' && BackupOf(d).name[|d.name| + 8] == 'o';
  }

  datatype Replacement = Replacement(destination: Path, hadPrevious: bool)

  /** The disk with the destination replaced and what was there before beside it. */
  function Prepared(at: Disk, source: Path, d: Path): Disk
    requires source in at
  {
    (if d in at then at[BackupOf(d) := at[d]] else at)[d := at[source]]
  }

  /** The disk with a replacement taken back. */
  function Undone(at: Disk, r: Replacement): Disk {
    var d := r.destination;
    var cleared := at - {StagedOf(d)};
    if !r.hadPrevious then cleared - {d}
    else if BackupOf(d) in cleared then (cleared - {BackupOf(d)})[d := cleared[BackupOf(d)]]
    else cleared
  }

  /** No replacement of the destination is under way. */
  predicate Idle(at: Disk, d: Path) { StagedOf(d) !in at && BackupOf(d) !in at }

  lemma UndoneIsBefore(at: Disk, source: Path, d: Path)
    requires source in at && Idle(at, d)
    ensures Undone(Prepared(at, source, d), Replacement(d, d in at)) == at
  {
    SpotsDiffer(d);
  }

  /**
   The destination's content before the replacement is still there: in its place, or in the backup.
   Every step of preparing and rolling back keeps this, also one that fails or is the last of its process.
   */
  predicate Restorable(at: Disk, before: Disk, d: Path) {
    if d in before
    then if BackupOf(d) in at then at[BackupOf(d)] == before[d] else d in at && at[d] == before[d]
    else BackupOf(d) !in at
  }

  predicate Suitable(at: Disk, source: Path, d: Path, mode: Mode) {
    && source in at && !at[source].SymbolicLink?
    && (d in at ==> mode.Replace? && !at[d].SymbolicLink? && at[d].Directory? == at[source].Directory?)
    && Idle(at, d)
  }

  /** The try block: stage a copy, set the previous content aside, move the copy into place. */
  method Swap(files: Files, source: Path, d: Path, hadPrevious: bool, windows: bool) returns (o: Outcome, broken: bool)
    requires source in files.at && Idle(files.at, d) && hadPrevious == (d in files.at)
    modifies files
    ensures o.Done? ==> files.at == Prepared(old(files.at), source, d)
    ensures o.Failed? && !broken ==> files.at - {StagedOf(d)} == old(files.at)
    ensures SameOutside(files.at, old(files.at), Spots(d)) && Restorable(files.at, old(files.at), d)
    ensures files.faults >= old(files.faults) && (!o.Done? ==> files.faults > old(files.faults))
  {
    SpotsDiffer(d);
    broken := false;
    o := files.CopyIn(Lookup(files.at, source), StagedOf(d));
    if !o.Done? { return; }
    if hadPrevious {
      o := files.RenameStable(windows, d, BackupOf(d));
      if !o.Done? { return; }
    }
    o := files.RenameStable(windows, StagedOf(d), d);
    if o.Failed? && hadPrevious {
      var undo := files.RenameStable(windows, BackupOf(d), d);
      broken := !undo.Done?;
      o := if undo.Crashed? then Outcome.Crashed else Outcome.Failed;
    }
  }

  method PrepareReplacement(files: Files, source: Path, d: Path, mode: Mode, windows: bool)
    returns (exit: Exit, r: Replacement)
    modifies files
    ensures exit.Returned? ==> Suitable(old(files.at), source, d, mode) && r == Replacement(d, d in old(files.at))
    ensures exit.Returned? ==> files.at == Prepared(old(files.at), source, d)
    ensures exit.Threw? ==> files.at == old(files.at)
    ensures !Suitable(old(files.at), source, d, mode) ==>
              !exit.Returned? && !exit.RollbackBroken? && files.at == old(files.at)
    ensures SameOutside(files.at, old(files.at), Spots(d))
    ensures Suitable(old(files.at), source, d, mode) ==> Restorable(files.at, old(files.at), d)
    ensures files.faults >= old(files.faults)
    ensures files.faults == old(files.faults) ==>
              exit == if Suitable(old(files.at), source, d, mode) then Returned else Threw
  {
    SpotsDiffer(d);
    r := Replacement(d, false);
    var o, from, previous, staged, backup;
    o, from := files.Status(source);
    if !o.Done? { return if o.Crashed? then Died else Threw, r; }
    if from.None? || from.value.SymbolicLink? { return Threw, r; }
    o, previous := files.Status(d);
    if !o.Done? { return if o.Crashed? then Died else Threw, r; }
    if previous.Some?
       && (previous.value.SymbolicLink? || mode.Create? || previous.value.Directory? != from.value.Directory?) {
      return Threw, r;
    }
    o, staged := files.Status(StagedOf(d));
    if !o.Done? { return if o.Crashed? then Died else Threw, r; }
    o, backup := files.Status(BackupOf(d));
    if !o.Done? { return if o.Crashed? then Died else Threw, r; }
    if staged.Some? || backup.Some? { return Threw, r; }
    r := Replacement(d, previous.Some?);
    var broken;
    o, broken := Swap(files, source, d, previous.Some?, windows);
    if o.Done? { return Returned, r; }
    if o.Crashed? { return Died, r; }
    o := files.Remove(StagedOf(d));
    if o.Crashed? { return Died, r; }
    exit := if broken || o.Failed? then RollbackBroken else Threw;
  }

  /** The destination is as it was before, with nothing left beside it. */
  predicate Restored(at: Disk, before: Disk, d: Path) {
    Idle(at, d) && (d in at <==> d in before) && (d in at ==> at[d] == before[d])
  }

  method RollbackReplacement(files: Files, r: Replacement, windows: bool, ghost before: Disk) returns (o: Outcome)
    modifies files
    ensures o.Done? ==> files.at == Undone(old(files.at), r)
    ensures SameOutside(files.at, old(files.at), Spots(r.destination))
    ensures Restorable(old(files.at), before, r.destination) && (r.hadPrevious <==> r.destination in before) ==>
              Restorable(files.at, before, r.destination) && (o.Done? ==> Restored(files.at, before, r.destination))
    ensures files.faults >= old(files.faults) && (!o.Done? ==> files.faults > old(files.faults))
  {
    var d := r.destination;
    SpotsDiffer(d);
    o := files.Remove(StagedOf(d));
    if !o.Done? { return; }
    if r.hadPrevious {
      var backup;
      o, backup := files.Status(BackupOf(d));
      if !o.Done? { return; }
      if backup.Some? {
        o := files.Remove(d);
        if !o.Done? { return; }
        o := files.RenameStable(windows, BackupOf(d), d);
      }
    } else {
      o := files.Remove(d);
    }
  }

  /** Only recovery material is removed: the destination stays, whatever happens. */
  method CommitReplacement(files: Files, r: Replacement) returns (o: Outcome)
    modifies files
    ensures SameOutside(files.at, old(files.at), {StagedOf(r.destination), BackupOf(r.destination)})
    ensures o.Done? ==> r.destination in files.at
                        && files.at == old(files.at) - {StagedOf(r.destination), BackupOf(r.destination)}
    ensures files.faults >= old(files.faults)
    ensures !o.Done? ==> files.faults > old(files.faults) || r.destination !in old(files.at)
  {
    var d := r.destination;
    SpotsDiffer(d);
    var present;
    o, present := files.Status(d);
    if !o.Done? { return; }
    if present.None? { return Outcome.Failed; }
    o := files.Remove(StagedOf(d));
    if !o.Done? { return; }
    o := files.Remove(BackupOf(d));
  }

  // ---------------------------------------------------------------- several destinations

  datatype Item = Item(source: Path, destination: Path)

  function Destinations(items: seq<Item>): seq<Path> {
    seq(|items|, i requires 0 <= i < |items| => items[i].destination)
  }

  /** No two destinations share a path. */
  ghost predicate ApartPaths(all: seq<Path>) {
    forall i, j :: 0 <= i < j < |all| ==> Spots(all[i]) !! Spots(all[j])
  }

  /** Nor is any source one of those paths, but for a destination that is replaced by itself. */
  ghost predicate Apart(items: seq<Item>) {
    && (forall i, j :: 0 <= i < j < |items| ==> Spots(items[i].destination) !! Spots(items[j].destination))
    && (forall i, j :: 0 <= i < |items| && 0 <= j < |items| && items[i].source in Spots(items[j].destination) ==>
          i == j && items[i].source == items[i].destination)
  }

  function Replacements(at: Disk, items: seq<Item>): seq<Replacement> {
    seq(|items|, i requires 0 <= i < |items| => Replacement(items[i].destination, items[i].destination in at))
  }

  /** All destinations replaced, first to last. */
  function PreparedAll(at: Disk, items: seq<Item>): Disk {
    if items == [] then at
    else
      var last, first := items[|items|-1], PreparedAll(at, items[..|items|-1]);
      if last.source in first then Prepared(first, last.source, last.destination) else first
  }

  /** All replacements taken back, last to first. */
  function UndoneAll(at: Disk, rs: seq<Replacement>): Disk
    decreases |rs|
  {
    if rs == [] then at else UndoneAll(Undone(at, rs[|rs|-1]), rs[..|rs|-1])
  }

  predicate AllIdle(at: Disk, items: seq<Item>) { forall i :: 0 <= i < |items| ==> Idle(at, items[i].destination) }

  predicate AllSourced(at: Disk, items: seq<Item>) { forall i :: 0 <= i < |items| ==> items[i].source in at }

  predicate AllRestorable(at: Disk, before: Disk, all: seq<Path>) {
    forall i :: 0 <= i < |all| ==> Restorable(at, before, all[i])
  }

  /** Each replacement knows whether its destination was there before. */
  predicate Matches(rs: seq<Replacement>, before: Disk) {
    forall i :: 0 <= i < |rs| ==> (rs[i].hadPrevious <==> rs[i].destination in before)
  }

  /** Preparing the first destinations touches neither the sources nor the later destinations. */
  lemma {:induction false} PreparedAllFrame(at: Disk, items: seq<Item>, k: nat)
    requires Apart(items) && k <= |items|
    ensures forall i :: 0 <= i < |items| ==>
              (items[i].source in PreparedAll(at, items[..k]) <==> items[i].source in at)
              && (items[i].source in at ==> PreparedAll(at, items[..k])[items[i].source] == at[items[i].source])
    ensures forall i, p :: k <= i < |items| && p in Spots(items[i].destination) ==>
              (p in PreparedAll(at, items[..k]) <==> p in at)
              && (p in at ==> PreparedAll(at, items[..k])[p] == at[p])
    decreases k
  {
    if k > 0 {
      PreparedAllFrame(at, items, k - 1);
      assert items[..k][..k-1] == items[..k-1];
      var d := items[k-1].destination;
      assert forall p :: p in Spots(d) <==> p == d || p == StagedOf(d) || p == BackupOf(d);
    }
  }

  /** Taking all replacements back restores the whole disk. */
  lemma {:induction false} UndoneAllIsBefore(at: Disk, items: seq<Item>)
    requires Apart(items) && AllIdle(at, items) && AllSourced(at, items)
    ensures UndoneAll(PreparedAll(at, items), Replacements(at, items)) == at
    decreases |items|
  {
    if items != [] {
      var k := |items| - 1;
      var first, last, rs := items[..k], items[k], Replacements(at, items);
      PreparedAllFrame(at, items, k);
      var p := PreparedAll(at, first);
      assert {last.destination, StagedOf(last.destination), BackupOf(last.destination)} == Spots(last.destination);
      assert last.destination in Spots(last.destination) && StagedOf(last.destination) in Spots(last.destination)
             && BackupOf(last.destination) in Spots(last.destination);
      UndoneIsBefore(p, last.source, last.destination);
      assert rs[..k] == Replacements(at, first);
      UndoneAllIsBefore(at, first);
    }
  }

  /** A change at one destination leaves the others as they are. */
  lemma OthersUnchanged(at: Disk, was: Disk, before: Disk, all: seq<Path>, k: nat)
    requires ApartPaths(all) && k < |all| && SameOutside(at, was, Spots(all[k]))
    ensures forall i :: 0 <= i < |all| && i != k ==>
              (Restorable(at, before, all[i]) <==> Restorable(was, before, all[i]))
              && (Restored(at, before, all[i]) <==> Restored(was, before, all[i]))
  {
    forall i | 0 <= i < |all| && i != k
      ensures Restorable(at, before, all[i]) <==> Restorable(was, before, all[i])
      ensures Restored(at, before, all[i]) <==> Restored(was, before, all[i])
    {
      assert Spots(all[if i < k then i else k]) !! Spots(all[if i < k then k else i]);
      assert all[i] in Spots(all[i]) && BackupOf(all[i]) in Spots(all[i]) && StagedOf(all[i]) in Spots(all[i]);
    }
  }

  /** Take replacements back, last first. */
  method RollbackAll(files: Files, rs: seq<Replacement>, windows: bool, ghost before: Disk, ghost all: seq<Path>)
    returns (o: Outcome)
    requires ApartPaths(all) && |rs| <= |all| && forall i :: 0 <= i < |rs| ==> rs[i].destination == all[i]
    modifies files
    ensures o.Done? ==> files.at == UndoneAll(old(files.at), rs)
    ensures Matches(rs, before) && AllRestorable(old(files.at), before, all) ==> AllRestorable(files.at, before, all)
    ensures Matches(rs, before) && AllRestorable(old(files.at), before, all) && o.Done? ==>
              forall i :: 0 <= i < |rs| ==> Restored(files.at, before, all[i])
    ensures files.faults >= old(files.faults) && (!o.Done? ==> files.faults > old(files.faults))
  {
    o := Outcome.Done;
    var k := |rs|;
    assert rs[..k] == rs;
    while k > 0
      invariant 0 <= k <= |rs| && o.Done? && files.faults >= old(files.faults)
      invariant UndoneAll(files.at, rs[..k]) == UndoneAll(old(files.at), rs)
      invariant Matches(rs, before) && AllRestorable(old(files.at), before, all) ==>
                  AllRestorable(files.at, before, all)
                  && forall i :: k <= i < |rs| ==> Restored(files.at, before, all[i])
    {
      k := k - 1;
      ghost var was := files.at;
      assert rs[..k+1][..k] == rs[..k];
      o := RollbackReplacement(files, rs[k], windows, before);
      OthersUnchanged(files.at, was, before, all, k);
      if !o.Done? { return; }
    }
  }

  predicate AllSuitable(at: Disk, items: seq<Item>, mode: Mode) {
    forall i :: 0 <= i < |items| ==> Suitable(at, items[i].source, items[i].destination, mode)
  }

  /** One more destination: what its preparation saw, and what it made, in terms of the disk before. */
  lemma PreparedNext(before: Disk, items: seq<Item>, k: nat)
    requires Apart(items) && k < |items|
    ensures var at := PreparedAll(before, items[..k]);
            && (items[k].source in at <==> items[k].source in before)
            && (forall mode :: Suitable(at, items[k].source, items[k].destination, mode)
                               <==> Suitable(before, items[k].source, items[k].destination, mode))
            && (items[k].destination in at <==> items[k].destination in before)
            && (Idle(at, items[k].destination) <==> Idle(before, items[k].destination))
            && (items[k].source in at ==>
                  PreparedAll(before, items[..k+1]) == Prepared(at, items[k].source, items[k].destination))
            && (Restorable(at, before, items[k].destination) <==> Restorable(before, before, items[k].destination))
  {
    PreparedAllFrame(before, items, k);
    var d := items[k].destination;
    assert d in Spots(d) && StagedOf(d) in Spots(d) && BackupOf(d) in Spots(d);
    assert items[..k+1][..k] == items[..k];
  }

  /** A destination could not be prepared: take the earlier ones back. */
  method TakeBack(files: Files, rs: seq<Replacement>, ghost items: seq<Item>, windows: bool, ghost before: Disk)
    returns (exit: Exit)
    requires Apart(items) && |rs| <= |items| && rs == Replacements(before, items[..|rs|])
    requires files.at == PreparedAll(before, items[..|rs|])
    requires AllIdle(before, items[..|rs|]) && AllSourced(before, items[..|rs|])
    modifies files
    ensures !exit.Returned? && (exit.Threw? ==> files.at == before)
    ensures AllRestorable(old(files.at), before, Destinations(items)) ==>
              AllRestorable(files.at, before, Destinations(items))
    ensures files.faults >= old(files.faults) && (!exit.Threw? ==> files.faults > old(files.faults))
  {
    var o := RollbackAll(files, rs, windows, before, Destinations(items));
    UndoneAllIsBefore(before, items[..|rs|]);
    exit := match o case Done => Threw case Failed => RollbackBroken case Crashed => Died;
  }

  lemma ReadyNext(before: Disk, items: seq<Item>, k: nat)
    requires k < |items| && AllIdle(before, items[..k]) && AllSourced(before, items[..k])
    requires Idle(before, items[k].destination) && items[k].source in before
    ensures AllIdle(before, items[..k+1]) && AllSourced(before, items[..k+1])
  {
    forall i | 0 <= i < k + 1 ensures Idle(before, items[i].destination) && items[i].source in before {
      if i < k { assert items[..k][i] == items[i]; }
    }
    assert forall i :: 0 <= i < k + 1 ==> items[..k+1][i] == items[i];
  }

  /** Restorability is inherited by an attempt that starts from an untouched destination. */
  lemma StillRestorable(at: Disk, was: Disk, before: Disk, d: Path)
    requires Idle(was, d) && Restorable(was, before, d) && (d in was <==> d in before)
    requires at == was || Restorable(at, was, d)
    ensures Restorable(at, before, d)
  {
  }

  method PrepareNext(files: Files, items: seq<Item>, k: nat, mode: Mode, windows: bool, ghost before: Disk)
    returns (exit: Exit, r: Replacement)
    requires Apart(items) && k < |items| && files.at == PreparedAll(before, items[..k])
    modifies files
    ensures exit.Returned? ==>
              && files.at == PreparedAll(before, items[..k+1])
              && Idle(before, items[k].destination) && items[k].source in before
              && r == Replacement(items[k].destination, items[k].destination in before)
    ensures exit.Threw? ==> files.at == old(files.at)
    ensures AllIdle(before, items) && AllRestorable(old(files.at), before, Destinations(items)) ==>
              AllRestorable(files.at, before, Destinations(items))
    ensures files.faults >= old(files.faults)
    ensures exit.Returned? ==> Suitable(before, items[k].source, items[k].destination, mode)
    ensures files.faults == old(files.faults) ==>
              exit == if Suitable(before, items[k].source, items[k].destination, mode) then Returned else Threw
  {
    ghost var all, was := Destinations(items), files.at;
    PreparedNext(before, items, k);
    exit, r := PrepareReplacement(files, items[k].source, items[k].destination, mode, windows);
    assert ApartPaths(all) && all[k] == items[k].destination;
    OthersUnchanged(files.at, was, before, all, k);
    if Idle(before, all[k]) && Restorable(was, before, all[k]) {
      StillRestorable(files.at, was, before, all[k]);
    }
  }

  /** Prepare every destination in turn; if one cannot be, take the earlier ones back. */
  method PrepareStableFiles(files: Files, items: seq<Item>, mode: Mode, windows: bool)
    returns (exit: Exit, rs: seq<Replacement>)
    requires Apart(items)
    modifies files
    ensures exit.Returned? ==> AllIdle(old(files.at), items) && AllSourced(old(files.at), items)
                               && files.at == PreparedAll(old(files.at), items)
                               && rs == Replacements(old(files.at), items)
    ensures exit.Threw? ==> files.at == old(files.at)
    ensures AllIdle(old(files.at), items) ==> AllRestorable(files.at, old(files.at), Destinations(items))
    ensures files.faults >= old(files.faults)
    ensures exit.Returned? ==> AllSuitable(old(files.at), items, mode)
    ensures files.faults == old(files.faults) ==>
              exit == if AllSuitable(old(files.at), items, mode) then Returned else Threw
  {
    ghost var before := files.at;
    rs := [];
    for k := 0 to |items|
      invariant rs == Replacements(before, items[..k])
      invariant files.at == PreparedAll(before, items[..k])
      invariant AllIdle(before, items[..k]) && AllSourced(before, items[..k])
      invariant AllIdle(before, items) ==> AllRestorable(files.at, before, Destinations(items))
      invariant files.faults >= old(files.faults)
      invariant forall i :: 0 <= i < k ==> Suitable(before, items[i].source, items[i].destination, mode)
    {
      var r;
      exit, r := PrepareNext(files, items, k, mode, windows, before);
      if exit.Died? || exit.RollbackBroken? { return; }
      if exit.Threw? {
        exit := TakeBack(files, rs, items, windows, before);
        return;
      }
      rs := rs + [r];
      ReadyNext(before, items, k);
      assert rs == Replacements(before, items[..k+1]);
    }
    assert items[..|items|] == items;
    exit := Returned;
  }

  lemma {:induction false} SourcesKept(at: Disk, items: seq<Item>, k: nat)
    requires Apart(items) && AllSourced(at, items) && k <= |items|
    ensures forall i :: 0 <= i < |items| ==>
              items[i].source in PreparedAll(at, items[..k])
              && PreparedAll(at, items[..k])[items[i].source] == at[items[i].source]
    decreases k
  {
    if k > 0 {
      SourcesKept(at, items, k - 1);
      PreparedNext(at, items, k - 1);
    }
  }

  lemma {:induction false} NewContentInPlace(at: Disk, items: seq<Item>, k: nat, i: nat)
    requires Apart(items) && AllSourced(at, items) && i < k <= |items|
    ensures items[i].destination in PreparedAll(at, items[..k])
    ensures PreparedAll(at, items[..k])[items[i].destination] == at[items[i].source]
    decreases k
  {
    PreparedNext(at, items, k - 1);
    SourcesKept(at, items, k - 1);
    if i < k - 1 {
      NewContentInPlace(at, items, k - 1, i);
      assert items[i].destination in Spots(items[i].destination);
    }
  }

  /** Every destination holds its new content. */
  predicate AllNew(at: Disk, before: Disk, items: seq<Item>) {
    forall i :: 0 <= i < |items| ==>
      items[i].source in before && items[i].destination in at && at[items[i].destination] == before[items[i].source]
  }

  lemma PreparedIsNew(at: Disk, items: seq<Item>)
    requires Apart(items) && AllSourced(at, items)
    ensures AllNew(PreparedAll(at, items), at, items)
  {
    assert items[..|items|] == items;
    forall i | 0 <= i < |items|
      ensures items[i].destination in PreparedAll(at, items)
              && PreparedAll(at, items)[items[i].destination] == at[items[i].source]
    {
      NewContentInPlace(at, items, |items|, i);
    }
  }

  // ---------------------------------------------------------------- the handle given to the installer

  /** Committing one replacement keeps every new content and what is already tidied up. */
  lemma CommitFrame(at: Disk, was: Disk, items: seq<Item>, k: nat)
    requires Apart(items) && k < |items|
    requires SameOutside(at, was, {StagedOf(items[k].destination), BackupOf(items[k].destination)})
    ensures forall i :: 0 <= i < |items| ==>
              (items[i].destination in at <==> items[i].destination in was)
              && (items[i].destination in was ==> at[items[i].destination] == was[items[i].destination])
    ensures forall i :: 0 <= i < |items| && i != k ==>
              (Idle(at, items[i].destination) <==> Idle(was, items[i].destination))
  {
    forall i | 0 <= i < |items|
      ensures (items[i].destination in at <==> items[i].destination in was)
              && (items[i].destination in was ==> at[items[i].destination] == was[items[i].destination])
      ensures i != k ==> (Idle(at, items[i].destination) <==> Idle(was, items[i].destination))
    {
      var d := items[i].destination;
      assert d in Spots(d) && StagedOf(d) in Spots(d) && BackupOf(d) in Spots(d);
      SpotsDiffer(d);
      if i != k {
        assert Spots(items[if i < k then i else k].destination) !! Spots(items[if i < k then k else i].destination);
        var e := items[k].destination;
        assert StagedOf(e) in Spots(e) && BackupOf(e) in Spots(e);
      }
    }
  }

  class PreparedFiles {
    const files: Files
    const replacements: seq<Replacement>
    const windows: bool
    var settled: bool

    constructor (files: Files, replacements: seq<Replacement>, windows: bool)
      ensures this.files == files && this.replacements == replacements && !settled
    {
      this.files, this.replacements, this.windows, settled := files, replacements, windows, false;
    }

    /** Settling a second time does nothing. */
    method Commit(ghost before: Disk, ghost items: seq<Item>) returns (o: Outcome)
      requires Apart(items) && replacements == Replacements(before, items)
      requires !settled ==> AllNew(files.at, before, items)
      modifies this`settled, files
      ensures old(settled) ==> o.Done? && files.at == old(files.at)
      ensures !old(settled) ==> AllNew(files.at, before, items)
      ensures !old(settled) && o.Done? ==> AllIdle(files.at, items)
      ensures settled == (old(settled) || o.Done?)
      ensures files.faults >= old(files.faults) && (!o.Done? ==> files.faults > old(files.faults))
    {
      o := Outcome.Done;
      if settled { return; }
      for k := 0 to |replacements|
        invariant o.Done? && AllNew(files.at, before, items) && AllIdle(files.at, items[..k]) && !settled
        invariant files.faults >= old(files.faults)
      {
        ghost var was := files.at;
        o := CommitReplacement(files, replacements[k]);
        CommitFrame(files.at, was, items, k);
        if !o.Done? { return; }
        forall i | 0 <= i <= k ensures Idle(files.at, items[i].destination) {
          if i < k { assert Idle(was, items[..k][i].destination); }
        }
      }
      settled := true;
    }

    method Rollback(ghost before: Disk, ghost items: seq<Item>) returns (o: Outcome)
      requires Apart(items) && AllIdle(before, items) && AllSourced(before, items)
      requires replacements == Replacements(before, items)
      requires !settled ==> files.at == PreparedAll(before, items)
      modifies this`settled, files
      ensures old(settled) ==> o.Done? && files.at == old(files.at)
      ensures !old(settled) && o.Done? ==> files.at == before
      ensures settled == (old(settled) || o.Done?)
      ensures files.faults >= old(files.faults) && (!o.Done? ==> files.faults > old(files.faults))
    {
      o := Outcome.Done;
      if settled { return; }
      o := RollbackAll(files, replacements, windows, before, Destinations(items));
      UndoneAllIsBefore(before, items);
      settled := o.Done?;
    }
  }

  // ---------------------------------------------------------------- after the process died

  function ReplacementsFor(all: seq<Path>, mode: Mode): seq<Replacement> {
    seq(|all|, i requires 0 <= i < |all| => Replacement(all[i], mode.Replace?))
  }

  /**
   Another process takes the replacements back. It no longer knows which destinations were there
   before, only the mode; where the mode tells that, everything is restored.
   */
  method RecoverByRollback(files: Files, all: seq<Path>, mode: Mode, windows: bool, ghost before: Disk)
    returns (o: Outcome)
    requires ApartPaths(all)
    modifies files
    ensures AllRestorable(old(files.at), before, all) && (forall d :: d in all ==> (mode.Replace? <==> d in before)) ==>
              AllRestorable(files.at, before, all)
              && (o.Done? ==> forall d :: d in all ==> Restored(files.at, before, d))
    ensures files.faults >= old(files.faults) && (!o.Done? ==> files.faults > old(files.faults))
  {
    o := RollbackAll(files, ReplacementsFor(all, mode), windows, before, all);
  }

  /** Exactly when the mode tells whether the destination was there, taking back restores it. */
  lemma RecoveryNeedsTheMode(d: Path, had: bool, mode: Mode)
    ensures (forall at, before :: Restorable(at, before, d) && (d in before) == had ==>
               Restored(Undone(at, Replacement(d, mode.Replace?)), before, d))
            <==> (had <==> mode.Replace?)
  {
    SpotsDiffer(d);
    var none: Disk, some: Disk := map[], map[d := File("")];
    if had && mode.Create? {
      assert Restorable(some, some, d) && !Restored(Undone(some, Replacement(d, false)), some, d);
    } else if !had && mode.Replace? {
      assert Restorable(some, none, d) && !Restored(Undone(some, Replacement(d, true)), none, d);
    }
  }
}
