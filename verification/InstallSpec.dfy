/**
 What an installation promises about the disk, phase by phase. `Inv` is the property every
 installer operation keeps at every point where it can stop; the lemmas draw from it what a user
 is promised.
 */
module InstallSpec {
  import opened Common
  import opened InstallDisk

  /**
   What the disk held when the recorded transaction began, for comparison only: the pointer, the
   directory it named, the data, and the candidate that was verified. `edited` says that the
   product has worked on the data since the transaction ended, `torn` that discarding the ready
   candidate was cut short, `custom` that a check other than inventory verification was used.
   */
  datatype Baseline = Baseline(current: Option<Release>, tree: Option<Tree>, data: UserData,
                               staged: Option<Tree>, edited: bool, torn: bool, custom: bool)

  function TargetOf(t: Transaction): Release {
    t.candidate.(directory := Installed(t.candidate.revision))
  }

  function TargetDir(t: Transaction): DirName { Installed(t.candidate.revision) }

  function ReplacedDir(t: Transaction): DirName { DirName.Replaced(t.candidate.revision, t.id) }

  predicate MigrationRequired(t: Transaction) {
    t.previous.Some? && t.previous.value.dataFormat < t.candidate.dataFormat
  }

  predicate SameRevision(t: Transaction) {
    t.previous.Some? && t.previous.value.revision == t.candidate.revision
  }

  predicate Terminal(p: Phase) { p.Committed? || p.RolledBack? || p.Failed? }

  predicate WellFormed(t: Transaction) {
    && t.candidate.directory == Candidate(t.candidate.revision, t.id)
    && (t.previous.Some? ==> t.previous.value.directory == Installed(t.previous.value.revision))
  }

  predicate Holds(s: DiskState, n: DirName, tree: Option<Tree>) {
    n in s.dirs && tree == Some(s.dirs[n])
  }

  /** The previous release can still be put back: its files are in its directory or in the backup. */
  predicate PreviousKept(s: DiskState, t: Transaction, b: Baseline) {
    t.previous.Some? ==>
      if SameRevision(t) && ReplacedDir(t) in s.dirs
      then Holds(s, ReplacedDir(t), b.tree)
      else Holds(s, t.previous.value.directory, b.tree)
  }

  /** The data before activation can still be put back. */
  predicate DataKept(s: DiskState, t: Transaction, b: Baseline) {
    if t.id in s.snapshots then s.snapshots[t.id] == b.data else s.data == b.data
  }

  /** What an interrupted or failed rollback still leaves: the previous release's files and the data. */
  predicate NothingLost(s: DiskState, t: Transaction, b: Baseline) {
    PreviousKept(s, t, b) && DataKept(s, t, b)
  }

  /** Nothing the transaction may later disturb has been disturbed yet. */
  predicate Untouched(s: DiskState, t: Transaction, b: Baseline) {
    && s.current == t.previous
    && ReplacedDir(t) !in s.dirs
    && s.data == b.data
  }

  /** The directory holds the verified candidate or, after a torn discard, a part of it. */
  predicate HoldsCandidate(s: DiskState, n: DirName, b: Baseline) {
    && n in s.dirs && b.staged.Some?
    && if b.torn then PartOf(s.dirs[n], b.staged.value) else s.dirs[n] == b.staged.value
  }

  /** The discard removed the whole candidate, and the previous release has at most been set aside. */
  predicate CandidateGone(s: DiskState, t: Transaction, b: Baseline) {
    && b.torn && s.current == t.previous
    && (ReplacedDir(t) in s.dirs ==> TargetDir(t) !in s.dirs)
  }

  /** Where the candidate is while directories move. */
  predicate CandidatePlaced(s: DiskState, t: Transaction, b: Baseline) {
    if t.candidate.directory in s.dirs
    then HoldsCandidate(s, t.candidate.directory, b)
    else HoldsCandidate(s, TargetDir(t), b) || CandidateGone(s, t, b)
  }

  predicate StagedVerified(t: Transaction, b: Baseline) {
    b.staged.Some? && Verified(b.staged.value, t.candidate)
  }

  function FinalData(t: Transaction, b: Baseline): UserData {
    if MigrationRequired(t) then Migrated(b.data, t.candidate.dataFormat) else b.data
  }

  /** The target is the very release that was installed before, untouched, and the candidate is gone. */
  predicate Reused(s: DiskState, t: Transaction, b: Baseline) {
    b.torn && t.previous == Some(TargetOf(t)) && Holds(s, TargetDir(t), b.tree)
  }

  /** The committed directory is exactly the verified candidate, unless the candidate was gone. */
  predicate ExactlyInstalled(s: DiskState, t: Transaction, b: Baseline) {
    Holds(s, TargetDir(t), b.staged) || Reused(s, t, b)
  }

  /** The target is current, is the verified candidate, and the data is in its format. */
  predicate Switched(s: DiskState, t: Transaction, b: Baseline) {
    && StagedVerified(t, b)
    && t.candidate.directory !in s.dirs
    && (HoldsCandidate(s, TargetDir(t), b) || Reused(s, t, b))
    && s.current == Some(TargetOf(t))
    && s.data == FinalData(t, b)
  }

  /** What a committed transaction leaves behind. */
  predicate CommittedState(s: DiskState, t: Transaction, b: Baseline) {
    && StagedVerified(t, b)
    && s.current == Some(TargetOf(t))
    && (HoldsCandidate(s, TargetDir(t), b) || Reused(s, t, b))
    && (!b.custom ==> ExactlyInstalled(s, t, b) && Verified(s.dirs[TargetDir(t)], TargetOf(t)))
    && (!b.edited ==> s.data == FinalData(t, b))
  }

  /** What a rolled-back or cleanly failed transaction leaves behind. */
  predicate PreviousState(s: DiskState, t: Transaction, b: Baseline) {
    && s.current == t.previous
    && (t.previous.Some? ==> Holds(s, t.previous.value.directory, b.tree))
    && (!b.edited ==> s.data == b.data)
  }

  predicate PhaseInv(s: DiskState, t: Transaction, b: Baseline) {
    match t.phase
    case Staging =>
      Untouched(s, t, b) && PreviousKept(s, t, b) && t.id !in s.snapshots
    case Ready =>
      && t.failure.NoFailure?
      && Untouched(s, t, b) && PreviousKept(s, t, b) && t.id !in s.snapshots
      && StagedVerified(t, b) && (!b.torn ==> Holds(s, t.candidate.directory, b.staged))
      && (t.candidate.directory in s.dirs ==> PartOf(s.dirs[t.candidate.directory], b.staged.value))
    case Snapshotting =>
      && Untouched(s, t, b) && PreviousKept(s, t, b) && DataKept(s, t, b)
    case Switching =>
      && PreviousKept(s, t, b) && StagedVerified(t, b) && CandidatePlaced(s, t, b)
      && s.data == b.data && DataKept(s, t, b)
      && (MigrationRequired(t) <==> t.id in s.snapshots)
    case Migrating =>
      PreviousKept(s, t, b) && DataKept(s, t, b)
    case Verifying =>
      PreviousKept(s, t, b) && DataKept(s, t, b) && Switched(s, t, b)
    case RollingBack =>
      PreviousKept(s, t, b) && DataKept(s, t, b)
    case Committed => CommittedState(s, t, b)
    case RolledBack => PreviousState(s, t, b)
    case Failed => PreviousState(s, t, b)
  }

  predicate Inv(s: DiskState, b: Baseline) {
    && (s.current.Some? ==> s.current.value.directory == Installed(s.current.value.revision))
    && match s.record
       case None => s.current.Some? ==> s.current.value.directory in s.dirs
       case Some(t) =>
         && WellFormed(t) && b.current == t.previous
         && (b.edited ==> Terminal(t.phase))
         && PhaseInv(s, t, b)
  }

  /** An intact installation, before any transaction of this run. */
  predicate Intact(s: DiskState) {
    && s.record.None?
    && (s.current.Some? ==>
          s.current.value.directory == Installed(s.current.value.revision) && s.current.value.directory in s.dirs)
  }

  /** No backup and no snapshot of an earlier transaction carries the id. */
  predicate FreshId(s: DiskState, id: string) {
    && id !in s.snapshots
    && (forall n :: n in s.dirs && n.Replaced? ==> n.id != id)
  }
}
