/**
 Installing a release bundle: recover, stage, prepare the stable files, activate, commit. Launcher,
 Desktop application, current release and data end all old or all new.
 */
module BundleInstallation {
  import opened Common
  import Installer = InstallDisk
  import opened InstallSpec
  import opened InstallTransaction
  import opened FileStore
  import opened StableFiles

  // ---------------------------------------------------------------- fresh transaction ids

  ghost function Longest(ids: set<string>): (n: nat)
    ensures forall id :: id in ids ==> |id| <= n
  {
    if ids == {} then 0
    else
      var id: string :| id in ids;
      var n := Longest(ids - {id});
      assert forall other :: other in ids ==> other == id || other in ids - {id};
      if |id| > n then |id| else n
  }

  /** No directory and no snapshot carries the id. */
  predicate Unused(s: Installer.DiskState, id: string) {
    id !in s.snapshots && forall n :: n in s.dirs && !n.Installed? ==> n.id != id
  }

  /** There is always an unused id. */
  lemma UnusedIdExists(s: Installer.DiskState)
    ensures exists id :: Unused(s, id)
  {
    var used := s.snapshots.Keys + set n | n in s.dirs && !n.Installed? :: n.id;
    var id := seq(Longest(used) + 1, i => 'x');
    assert id !in used;
    assert Unused(s, id);
  }

  // ---------------------------------------------------------------- the installation

  /** What the user had before is what the user has. */
  predicate PointsAsBefore(s: Installer.DiskState, before: Installer.DiskState) {
    && s.current == before.current && s.data == before.data
    && (s.current.Some? && s.current.value.directory in before.dirs ==>
          Holds(s, s.current.value.directory, Some(before.dirs[s.current.value.directory])))
  }

  /** The new release is current, complete, and the data is in its format. */
  predicate PointsAtNew(s: Installer.DiskState, before: Installer.DiskState, source: Source) {
    && s.current.Some?
    && var r := s.current.value;
       && r == source.release.(directory := Installer.Installed(source.release.revision))
       && Holds(s, r.directory, Some(source.tree))
       && Installer.Verified(source.tree, r)
       && s.data == (if before.current.Some? && before.current.value.dataFormat < r.dataFormat
                     then Installer.Migrated(before.data, r.dataFormat) else before.data)
  }

  lemma PreviousMeansBefore(s: Installer.DiskState, t: Installer.Transaction, b: Baseline, before: Installer.DiskState)
    requires PreviousState(s, t, b) && t.previous == before.current && !b.edited
    requires b == NewBaseline(before).(staged := b.staged, torn := b.torn, custom := b.custom)
    ensures PointsAsBefore(s, before)
  {
  }

  /** A discard, finished or not, leaves the installation as it was before staging. */
  lemma DiscardedMeansBefore(s: Installer.DiskState, b: Baseline, before: Installer.DiskState)
    requires Inv(s, b) && s.record.Some? && s.record.value.phase in {Installer.Ready, Installer.Phase.Failed}
    requires b == NewBaseline(before).(staged := b.staged, torn := b.torn, custom := b.custom) && s.data == before.data
    ensures PointsAsBefore(s, before)
  {
  }

  /** What staging asks of the payload and of the installed release. */
  predicate Stageable(s: Installer.DiskState, source: Source, expectedTarget: string) {
    && MayStage(s)
    && source.tree.inventory.Some?
    && source.tree.inventory.value.target == expectedTarget
    && source.tree.files == source.tree.inventory.value.files
    && Installer.SameIdentity(source.tree.inventory.value, source.release)
    && (s.current.Some? ==> s.current.value.target == expectedTarget
                            && s.current.value.dataFormat <= source.release.dataFormat)
  }

  /** The new release can read the data, or comes with a migration. */
  predicate Migratable(s: Installer.DiskState, source: Source, hasMigration: bool) {
    s.current.Some? && s.current.value.dataFormat < source.release.dataFormat ==> hasMigration
  }

  /** What staging leaves for the rest of the installation. */
  predicate StagedFor(s: Installer.DiskState, b: Baseline, source: Source, before: Installer.DiskState) {
    && IsReady(s) && s.data == before.data && s.record.value.previous == before.current
    && b == NewBaseline(before).(staged := Some(source.tree), custom := b.custom)
    && s.record.value.candidate == source.release.(directory := s.record.value.candidate.directory)
  }

  /** A call that returned, or failed after the release was committed, leaves all new; any other failure all old. */
  predicate AllOrNothing(exit: Exit, committing: bool, s: Installer.DiskState, recovered: Installer.DiskState,
                         source: Source,
                         at: FileStore.Disk, before: FileStore.Disk, stable: Option<seq<Item>>) {
    && (exit.Returned? ==> committing)
    && (committing ==>
          && PointsAtNew(s, recovered, source) && s.record.Some? && s.record.value.phase.Committed?
          && (stable.Some? ==> AllNew(at, before, stable.value))
          && (exit.Returned? && stable.Some? ==> AllIdle(at, stable.value)))
    && (!committing ==> PointsAsBefore(s, recovered) && at == before)
  }

  method StageFresh(disk: Installer.Disk, source: Source, expectedTarget: string, consume: bool, ghost b0: Baseline)
    returns (exit: Exit, ghost b: Baseline)
    requires Inv(disk.st, b0)
    modifies disk
    ensures Inv(disk.st, b) && !exit.RollbackBroken?
    ensures exit.Returned? ==> StagedFor(disk.st, b, source, old(disk.st))
    ensures exit.Threw? ==> PointsAsBefore(disk.st, old(disk.st))
    ensures !MayStage(old(disk.st)) ==> exit.Threw? && disk.st == old(disk.st)
    ensures disk.faults >= old(disk.faults) && (exit.Returned? ==> !b.torn)
    ensures exit.Threw? && disk.faults == old(disk.faults) ==> disk.st.record == old(disk.st).record
    ensures disk.faults == old(disk.faults) && Stageable(old(disk.st), source, expectedTarget) ==> exit.Returned?
  {
    UnusedIdExists(disk.st);
    var id: string :| Unused(disk.st, id);
    exit, b := Stage(disk, source, expectedTarget, id, consume, b0);
  }

  /** An earlier installation's record is still to be finished or undone. */
  predicate Unsettled(s: Installer.DiskState) { s.record.Some? && !Settled(s.record.value.phase) }

  /**
   What recovery makes of the installation it finds: nothing if that was settled, else the same
   transaction, committed or rolled back as it was found, with all that this means against the same
   baseline.
   */
  predicate Recovered(s: Installer.DiskState, s': Installer.DiskState, custom: bool, faultless: bool, b: Baseline) {
    if !Unsettled(s) then s' == s
    else
      var t := s.record.value;
      && EndsRightly(s, t, custom, s', faultless)
      && Inv(s', b)
  }

  /** What an earlier installation left behind is finished or undone first. */
  method RecoverFirst(disk: Installer.Disk, hasMigration: bool, custom: bool, ghost b0: Baseline)
    returns (exit: Exit, ghost b: Baseline)
    requires Inv(disk.st, b0)
    modifies disk
    ensures !exit.RollbackBroken? ==> Inv(disk.st, b)
    ensures !exit.Threw? && disk.faults >= old(disk.faults)
    ensures b == b0.(custom := b0.custom || custom)
    ensures exit.Returned? ==> Recovered(old(disk.st), disk.st, custom, disk.faults == old(disk.faults), b)
    ensures !Unsettled(old(disk.st)) ==> exit.Returned?
    ensures exit.RollbackBroken? ==> old(disk.st).record.Some? && NothingLost(disk.st, old(disk.st).record.value, b0)
    ensures disk.faults == old(disk.faults)
            && (old(disk.st).record.Some? && old(disk.st).record.value.id in old(disk.st).snapshots ==> hasMigration)
            ==> exit.Returned?
  {
    b := b0.(custom := b0.custom || custom);
    exit := Recover(disk, hasMigration, custom, b);
  }

  /** The staged candidate becomes current, or everything is as before. */
  method ActivateStaged(disk: Installer.Disk, ghost source: Source, hasMigration: bool, custom: bool, ghost b: Baseline,
                        ghost recovered: Installer.DiskState) returns (exit: Exit)
    requires Inv(disk.st, b) && StagedFor(disk.st, b, source, recovered) && (custom ==> b.custom)
    modifies disk
    ensures !exit.RollbackBroken? ==> Inv(disk.st, b)
    ensures exit.Returned? ==>
              PointsAtNew(disk.st, recovered, source) && disk.st.record.Some? && disk.st.record.value.phase.Committed?
    ensures exit.Threw? ==> PointsAsBefore(disk.st, recovered)
    ensures disk.faults >= old(disk.faults)
    ensures disk.faults == old(disk.faults) && Migratable(recovered, source, hasMigration) ==> exit.Returned?
    ensures exit.Threw? && disk.faults == old(disk.faults) ==> MayStage(disk.st)
  {
    ghost var t := disk.st.record.value;
    exit := Activate(disk, hasMigration, custom, b);
    if exit.Threw? { PreviousMeansBefore(disk.st, t, b, recovered); }
  }

  /** The record says that stable files were refused, and the candidate is gone from the disk. */
  predicate CandidateDiscarded(s: Installer.DiskState, source: Source) {
    && s.record.Some? && s.record.value.phase == Installer.Phase.Failed
    && s.record.value.failure == Installer.StableFilesFailed
    && s.record.value.candidate == source.release.(directory := s.record.value.candidate.directory)
    && s.record.value.candidate.directory !in s.dirs
  }

  /** The stable files were refused: the error that says so is thrown on, unless the process dies. */
  method DiscardRefused(disk: Installer.Disk, ghost source: Source, ghost b0: Baseline,
                        ghost recovered: Installer.DiskState)
    returns (exit: Exit, ghost b: Baseline)
    requires Inv(disk.st, b0) && StagedFor(disk.st, b0, source, recovered)
    modifies disk
    ensures Inv(disk.st, b) && exit in {Threw, Died} && PointsAsBefore(disk.st, recovered)
    ensures disk.faults >= old(disk.faults)
    ensures disk.faults == old(disk.faults) ==>
              exit.Threw? && CandidateDiscarded(disk.st, source) && MayStage(disk.st)
  {
    exit, b := Discard(disk, b0);
    DiscardedMeansBefore(disk.st, b, recovered);
    if !exit.Died? { exit := Threw; }
  }

  /** From the ready candidate on. */
  method SwitchOver(disk: Installer.Disk, files: Files, ghost source: Source, stable: Option<seq<Item>>, mode: Mode,
                    windows: bool, hasMigration: bool, custom: bool, ghost b0: Baseline,
                    ghost recovered: Installer.DiskState)
    returns (exit: Exit, ghost b: Baseline, ghost committing: bool)
    requires Inv(disk.st, b0) && StagedFor(disk.st, b0, source, recovered) && (custom ==> b0.custom)
    requires stable.Some? ==> Apart(stable.value)
    modifies disk, files
    ensures !exit.RollbackBroken? ==> Inv(disk.st, b)
    ensures exit.Returned? || exit.Threw? ==>
              AllOrNothing(exit, committing, disk.st, recovered, source, files.at, old(files.at), stable)
    ensures disk.faults >= old(disk.faults) && files.faults >= old(files.faults)
    ensures (disk.faults == old(disk.faults) && files.faults == old(files.faults)
             && Migratable(recovered, source, hasMigration)
             && (stable.Some? ==> AllSuitable(old(files.at), stable.value, mode))) ==> exit.Returned?
    ensures exit.Threw? && disk.faults == old(disk.faults) ==> MayStage(disk.st)
    ensures disk.faults == old(disk.faults) && files.faults == old(files.faults)
            && stable.Some? && !AllSuitable(old(files.at), stable.value, mode) ==>
              exit.Threw? && CandidateDiscarded(disk.st, source)
  {
    ghost var before := files.at;
    b, committing := b0, false;
    var handle: PreparedFiles? := null;
    if stable.Some? {
      var rs;
      exit, rs := PrepareStableFiles(files, stable.value, mode, windows);
      if exit.Died? || exit.RollbackBroken? { return; }
      if exit.Threw? {
        exit, b := DiscardRefused(disk, source, b0, recovered);
        return;
      }
      handle := new PreparedFiles(files, rs, windows);
      PreparedIsNew(before, stable.value);
    }
    exit := ActivateStaged(disk, source, hasMigration, custom, b0, recovered);
    if exit.Died? || exit.RollbackBroken? { return; }
    if exit.Threw? {
      if handle != null {
        var o := handle.Rollback(before, stable.value);
        if !o.Done? { exit := if o.Crashed? then Died else RollbackBroken; }
      }
      return;
    }
    committing := true;
    if handle != null {
      var o := handle.Commit(before, stable.value);
      exit := match o case Done => Returned case Failed => Threw case Crashed => Died;
    }
  }

  /** After recovery: stage the payload and switch over to it. */
  method StageAndSwitch(disk: Installer.Disk, files: Files, source: Source, expectedTarget: string,
                        stable: Option<seq<Item>>, mode: Mode, windows: bool, hasMigration: bool, custom: bool,
                        consume: bool, ghost b0: Baseline)
    returns (exit: Exit, ghost b: Baseline, ghost committing: bool)
    requires Inv(disk.st, b0) && (stable.Some? ==> Apart(stable.value))
    modifies disk, files
    ensures !exit.RollbackBroken? ==> Inv(disk.st, b)
    ensures !MayStage(old(disk.st)) ==> exit.Threw? && disk.st == old(disk.st) && files.at == old(files.at)
    ensures exit.Returned? || exit.Threw? ==>
              AllOrNothing(exit, committing, disk.st, old(disk.st), source, files.at, old(files.at), stable)
    ensures disk.faults >= old(disk.faults) && files.faults >= old(files.faults)
    ensures exit.Threw? && disk.faults == old(disk.faults) && MayStage(old(disk.st)) ==> MayStage(disk.st)
    ensures disk.faults == old(disk.faults) && files.faults == old(files.faults)
            && Stageable(old(disk.st), source, expectedTarget) ==>
              if stable.Some? && !AllSuitable(old(files.at), stable.value, mode)
              then exit.Threw? && CandidateDiscarded(disk.st, source)
              else Migratable(old(disk.st), source, hasMigration) ==> exit.Returned?
  {
    ghost var recovered := disk.st;
    committing := false;
    exit, b := StageFresh(disk, source, expectedTarget, consume, b0);
    if !exit.Returned? { return; }
    b := b.(custom := custom);
    exit, b, committing := SwitchOver(disk, files, source, stable, mode, windows, hasMigration, custom, b, recovered);
  }

  /** Recovery has the migration it may need to bring the data back. */
  predicate Recoverable(s: Installer.DiskState, hasMigration: bool) {
    s.record.Some? && s.record.value.id in s.snapshots ==> hasMigration
  }

  /**
   `stable` lists the launcher and, where there is one, the Desktop application. `recovered` is the
   disk after recovery, `committing` tells whether the release itself had been committed.
   */
  method InstallReleaseBundle(disk: Installer.Disk, files: Files, bundleAccepted: bool, source: Source,
                              expectedTarget: string,
                              stable: Option<seq<Item>>, mode: Mode, windows: bool, hasMigration: bool, custom: bool,
                              consume: bool, ghost b0: Baseline)
    returns (exit: Exit, ghost b: Baseline, ghost recovered: Installer.DiskState, ghost committing: bool)
    requires Inv(disk.st, b0) && (stable.Some? ==> Apart(stable.value))
    modifies disk, files
    ensures !exit.RollbackBroken? ==> Inv(disk.st, b)
    ensures IsReady(old(disk.st)) ==> exit.Threw? && disk.st == old(disk.st) && files.at == old(files.at)
    ensures !bundleAccepted ==> exit.Threw? && disk.st == old(disk.st) && files.at == old(files.at)
    ensures exit.Returned? || exit.Threw? ==>
              AllOrNothing(exit, committing, disk.st, recovered, source, files.at, old(files.at), stable)
    ensures bundleAccepted && (exit.Returned? || exit.Threw?) ==>
              Recovered(old(disk.st), recovered, custom, disk.faults == old(disk.faults),
                        b0.(custom := b0.custom || custom))
    ensures !bundleAccepted ==> recovered == old(disk.st)
    ensures disk.faults >= old(disk.faults) && files.faults >= old(files.faults)
    ensures (disk.faults == old(disk.faults) && files.faults == old(files.faults) && bundleAccepted
             && Recoverable(old(disk.st), hasMigration)
             && Stageable(recovered, source, expectedTarget) && Migratable(recovered, source, hasMigration)
             && (stable.Some? ==> AllSuitable(old(files.at), stable.value, mode))) ==> exit.Returned?
    ensures bundleAccepted && exit.Threw? && disk.faults == old(disk.faults) && !IsReady(old(disk.st)) ==>
              MayStage(disk.st)
    ensures disk.faults == old(disk.faults) && files.faults == old(files.faults) && bundleAccepted
            && Recoverable(old(disk.st), hasMigration)
            && Stageable(recovered, source, expectedTarget)
            && stable.Some? && !AllSuitable(old(files.at), stable.value, mode) ==>
              exit.Threw? && CandidateDiscarded(disk.st, source)
  {
    b, recovered, committing := b0, disk.st, false;
    if !bundleAccepted { return Threw, b, recovered, false; }
    exit, b := RecoverFirst(disk, hasMigration, custom, b0);
    recovered := disk.st;
    if !exit.Returned? { return; }
    exit, b, committing := StageAndSwitch(disk, files, source, expectedTarget, stable, mode, windows, hasMigration,
                                          custom, consume, b);
  }
}
