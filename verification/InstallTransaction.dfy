/**
 The installer's operations on a disk. Each runs under the installation lock (module
 InstallationLock), so the disk changes under it only by its own operations. Its postconditions
 hold wherever it stops: after a normal return, an error, or the death of its process.
 */
module InstallTransaction {
  import opened Common
  import opened InstallDisk
  import opened InstallSpec

  const SWITCH_RETRY_WAIT_MS := 5000
  const SWITCH_RETRY_MAX_DELAY_MS := 1000

  predicate IsReady(s: DiskState) { s.record.Some? && s.record.value.phase.Ready? }

  function WithPhase(t: Transaction, phase: Phase, failure: Failure := NoFailure): Transaction {
    t.(phase := phase, failure := failure)
  }

  /** The record is this transaction's, in whatever phase. */
  predicate IsOf(s: DiskState, t: Transaction) {
    s.record.Some? && s.record.value == WithPhase(t, s.record.value.phase, s.record.value.failure)
  }

  /** Rename, retrying for about five seconds while something holds the directory. */
  method SwitchDirectory(disk: Disk, source: DirName, destination: DirName) returns (o: Outcome, waited: nat)
    modifies disk
    ensures disk.st == old(disk.st) || (source in old(disk.st).dirs && destination !in old(disk.st).dirs
                                        && disk.st == Moved(old(disk.st), source, destination))
    ensures o.Done? ==> source in old(disk.st).dirs && destination !in old(disk.st).dirs
                        && disk.st == Moved(old(disk.st), source, destination)
    ensures o.Failed? ==> disk.st == old(disk.st) && SWITCH_RETRY_WAIT_MS <= waited
    ensures waited < SWITCH_RETRY_WAIT_MS + SWITCH_RETRY_MAX_DELAY_MS
    ensures disk.faults >= old(disk.faults)
    ensures !o.Done? ==>
              disk.faults > old(disk.faults) || source !in old(disk.st).dirs || destination in old(disk.st).dirs
  {
    waited := 0;
    var next := 50;
    while true
      invariant disk.st == old(disk.st) && disk.faults >= old(disk.faults)
      invariant 50 <= next <= SWITCH_RETRY_MAX_DELAY_MS
      invariant waited < SWITCH_RETRY_WAIT_MS + SWITCH_RETRY_MAX_DELAY_MS
      decreases SWITCH_RETRY_WAIT_MS + SWITCH_RETRY_MAX_DELAY_MS - waited
    {
      o := disk.Rename(source, destination);
      if !o.Failed? || waited >= SWITCH_RETRY_WAIT_MS { return; }
      waited := waited + next;
      next := if next * 2 < SWITCH_RETRY_MAX_DELAY_MS then next * 2 else SWITCH_RETRY_MAX_DELAY_MS;
    }
  }

  // ---------------------------------------------------------------- staging

  datatype Source = Source(tree: Tree, release: Release)

  predicate MayStage(s: DiskState) {
    s.record.None? || Terminal(s.record.value.phase)
  }

  /** The checks staging makes of the record and the payload, before it looks at any directory. */
  predicate StageChecks(s: DiskState, source: Source, expectedTarget: string) {
    && MayStage(s)
    && source.tree.inventory.Some?
    && source.tree.inventory.value.target == expectedTarget
    && source.tree.files == source.tree.inventory.value.files
    && SameIdentity(source.tree.inventory.value, source.release)
  }

  /** All checks staging makes before it writes its record. */
  predicate StageAccepts(s: DiskState, source: Source, id: string, expectedTarget: string) {
    && StageChecks(s, source, expectedTarget)
    && Candidate(source.release.revision, id) !in s.dirs
    && (s.current.Some? ==> s.current.value.target == expectedTarget
                            && s.current.value.dataFormat <= source.release.dataFormat)
  }

  function NewTransaction(s: DiskState, source: Source, id: string): Transaction {
    Transaction(id, Staging, source.release.(directory := Candidate(source.release.revision, id)),
                s.current, NoFailure)
  }

  /** What the disk holds when staging begins is what a rollback has to bring back. */
  function NewBaseline(s: DiskState): Baseline {
    Baseline(s.current,
             if s.current.Some? && s.current.value.directory in s.dirs
             then Some(s.dirs[s.current.value.directory]) else None,
             s.data, None, false, false, false)
  }

  /** Staging was begun: the record is a new transaction's, and what was verified is the payload. */
  predicate StagedAs(s: DiskState, s': DiskState, source: Source, id: string, b: Baseline) {
    && MayStage(s) && IsOf(s', NewTransaction(s, source, id))
    && b == NewBaseline(s).(staged := b.staged) && b.staged in {None, Some(source.tree)}
  }

  lemma CurrentIsThere(s: DiskState, b: Baseline)
    requires Inv(s, b) && MayStage(s)
    ensures s.current.Some? ==> s.current.value.directory in s.dirs
  {
  }

  /** Move a disposable payload if that works, else copy it. */
  method PlaceCandidate(disk: Disk, n: DirName, source: Tree, consume: bool) returns (o: Outcome)
    modifies disk
    ensures disk.st == old(disk.st).(dirs := disk.st.dirs)
    ensures SameExcept(old(disk.st).dirs, disk.st.dirs, n)
    ensures o.Done? ==> n in disk.st.dirs
    ensures disk.faults >= old(disk.faults)
    ensures !o.Done? ==> disk.faults > old(disk.faults)
    ensures o.Done? && disk.faults == old(disk.faults) ==> disk.st.dirs[n] == source
  {
    if consume {
      o := disk.MoveIn(n, source);
      if !o.Failed? { return; }
    }
    o := disk.CopyIn(n, source);
  }

  /** The try block of staging, from the first change to the disk on. */
  method StageTry(disk: Disk, source: Source, id: string, consume: bool, ghost b0: Baseline)
    returns (o: Outcome, ghost b: Baseline)
    requires Inv(disk.st, b0) && StageAccepts(disk.st, source, id, source.release.target)
    modifies disk
    ensures disk.faults >= old(disk.faults) && (!o.Done? ==> disk.faults > old(disk.faults))
    ensures FreshId(old(disk.st), id) ==> Inv(disk.st, b)
    ensures disk.st == old(disk.st).(record := disk.st.record, dirs := disk.st.dirs)
    ensures SameExcept(old(disk.st).dirs, disk.st.dirs, Candidate(source.release.revision, id))
    ensures (b == b0 && disk.st == old(disk.st))
            || (b == NewBaseline(old(disk.st)).(staged := b.staged) && disk.st.record.Some?
                && disk.st.record.value in {NewTransaction(old(disk.st), source, id),
                                            WithPhase(NewTransaction(old(disk.st), source, id), Ready)})
    ensures o.Failed? && disk.st != old(disk.st) ==> disk.st.record == Some(NewTransaction(old(disk.st), source, id))
    ensures o.Done? ==>
              && disk.st.record == Some(WithPhase(NewTransaction(old(disk.st), source, id), Ready))
              && b.staged == Some(source.tree)
    ensures (b == b0 && disk.st == old(disk.st)) || StagedAs(old(disk.st), disk.st, source, id, b)
  {
    CurrentIsThere(disk.st, b0);
    var inventory := source.tree.inventory.value;
    var t := NewTransaction(disk.st, source, id);
    ghost var begun := NewBaseline(disk.st);
    var n := t.candidate.directory;
    b := b0;
    o := disk.WriteRecord(t);
    b := if disk.st == old(disk.st) then b0 else begun;
    if !o.Done? { return; }
    o := PlaceCandidate(disk, n, source.tree, consume);
    if !o.Done? { return; }
    o := disk.WriteInventory(n, inventory);
    if !o.Done? { return; }
    o := disk.Verify(n, t.candidate, false);
    if !o.Done? { return; }
    b := begun.(staged := Some(disk.st.dirs[n]));
    o := disk.WriteRecord(WithPhase(t, Ready));
  }

  /** Between transactions only the current release's directory matters. */
  lemma OnlyCurrentMatters(s: DiskState, s': DiskState, b: Baseline)
    requires Inv(s, b) && MayStage(s) && s' == s.(dirs := s'.dirs, snapshots := s'.snapshots)
    requires s.current.Some? && s.current.value.directory in s.dirs ==>
               Holds(s', s.current.value.directory, Some(s.dirs[s.current.value.directory]))
    ensures Inv(s', b)
  {
    CurrentIsThere(s, b);
  }

  /** The error handler of staging: remove the candidate and record the failure, if it was begun. */
  method UndoStage(disk: Disk, t: Transaction, begun: bool, ghost s0: DiskState, ghost b0: Baseline)
    returns (exit: Exit, ghost b: Baseline)
    requires MayStage(s0) && Inv(s0, b0) && t.candidate.directory.Candidate? && WellFormed(t)
    requires begun ==> t.phase.Staging? && t.previous == s0.current
    requires begun ==> disk.st == s0 || disk.st == s0.(record := Some(t), dirs := disk.st.dirs)
    requires !begun ==> disk.st == s0
    requires SameExcept(s0.dirs, disk.st.dirs, t.candidate.directory)
    modifies disk
    ensures exit in {Threw, Died} && disk.faults >= old(disk.faults)
    ensures FreshId(s0, t.id) || disk.st.record == s0.record ==> Inv(disk.st, b)
    ensures disk.st == old(disk.st).(dirs := disk.st.dirs, record := disk.st.record)
    ensures SameExcept(s0.dirs, disk.st.dirs, t.candidate.directory)
    ensures t.candidate.directory !in old(disk.st).dirs && !begun ==> disk.st == s0
    ensures (b == b0 && disk.st.record == s0.record) || (begun && b == NewBaseline(s0) && IsOf(disk.st, t))
  {
    CurrentIsThere(s0, b0);
    var o := disk.Remove(t.candidate.directory);
    b := if disk.st.record == s0.record then b0 else NewBaseline(s0);
    if disk.st.record == s0.record { OnlyCurrentMatters(s0, disk.st, b0); }
    if o.Done? && begun {
      o := disk.WriteRecord(WithPhase(t, Phase.Failed, StageFailed));
      if disk.st.record == Some(WithPhase(t, Phase.Failed, StageFailed)) { b := NewBaseline(s0); }
    }
    exit := if o.Crashed? then Died else Threw;
  }

  /** Verify the payload, place it beside the installed releases and mark it ready. */
  method Stage(disk: Disk, source: Source, expectedTarget: string, id: string, consume: bool, ghost b0: Baseline)
    returns (exit: Exit, ghost b: Baseline)
    requires Inv(disk.st, b0)
    modifies disk
    ensures FreshId(old(disk.st), id) || disk.st.record == old(disk.st).record ==> Inv(disk.st, b)
    ensures !exit.RollbackBroken?
    ensures disk.st.data == old(disk.st).data && disk.st.current == old(disk.st).current
    ensures SameExcept(old(disk.st).dirs, disk.st.dirs, Candidate(source.release.revision, id))
    ensures disk.faults >= old(disk.faults)
    ensures (b == b0 && disk.st.record == old(disk.st).record) || StagedAs(old(disk.st), disk.st, source, id, b)
    ensures !StageChecks(old(disk.st), source, expectedTarget) ==> exit.Threw? && disk.st == old(disk.st) && b == b0
    ensures !StageAccepts(old(disk.st), source, id, expectedTarget) ==>
              !exit.Returned? && b == b0 && disk.st == old(disk.st).(dirs := disk.st.dirs)
              && (Candidate(source.release.revision, id) !in old(disk.st).dirs ==> disk.st == old(disk.st))
    ensures exit.Returned? ==>
              && disk.st.record == Some(WithPhase(NewTransaction(old(disk.st), source, id), Ready))
              && b.staged == Some(source.tree)
    ensures disk.faults == old(disk.faults) && StageAccepts(old(disk.st), source, id, expectedTarget) ==> exit.Returned?
  {
    b := b0;
    if !StageChecks(disk.st, source, expectedTarget) { return Threw, b0; }
    ghost var s0 := disk.st;
    var t := NewTransaction(disk.st, source, id);
    if !StageAccepts(disk.st, source, id, expectedTarget) {
      // The handler removes the candidate directory, also one that was there before.
      exit, b := UndoStage(disk, t, false, s0, b0);
      return;
    }
    var o;
    o, b := StageTry(disk, source, id, consume, b0);
    if o.Done? { return Returned, b; }
    if o.Crashed? { return Died, b; }
    exit, b := UndoStage(disk, t, true, s0, b0);
  }

  // ---------------------------------------------------------------- discarding a ready candidate

  method Discard(disk: Disk, ghost b0: Baseline) returns (exit: Exit, ghost b: Baseline)
    requires Inv(disk.st, b0)
    modifies disk
    ensures Inv(disk.st, b) && !exit.RollbackBroken?
    ensures b == b0.(torn := b.torn) && (b.torn && !b0.torn ==> !exit.Returned? && disk.faults > old(disk.faults))
    ensures disk.faults >= old(disk.faults)
    ensures disk.st == old(disk.st).(dirs := disk.st.dirs, record := disk.st.record)
    ensures disk.st.record == old(disk.st).record
            || (IsReady(old(disk.st))
                && disk.st.record == Some(WithPhase(old(disk.st).record.value, Phase.Failed, StableFilesFailed)))
    ensures !IsReady(old(disk.st)) ==> exit.Threw? && disk.st == old(disk.st) && b == b0
    ensures exit.Returned? ==>
              && disk.st.record == Some(WithPhase(old(disk.st).record.value, Phase.Failed, StableFilesFailed))
              && old(disk.st).record.value.candidate.directory !in disk.st.dirs
    ensures disk.faults == old(disk.faults) && IsReady(old(disk.st)) ==> exit.Returned?
  {
    b := b0;
    if !IsReady(disk.st) { return Threw, b; }
    var t := disk.st.record.value;
    var o := disk.Remove(t.candidate.directory);
    if o.Crashed? { return Died, b.(torn := true); }
    if o.Failed? { return Threw, b.(torn := true); }
    o := disk.WriteRecord(WithPhase(t, Phase.Failed, StableFilesFailed));
    if !o.Done? { b := b.(torn := true); }
    exit := match o case Done => Returned case Failed => Threw case Crashed => Died;
  }

  // ---------------------------------------------------------------- activation

  /** What the activation's error handler knows: the variables its process holds. */
  datatype Progress = Progress(replaced: bool, installed: bool, migrationStarted: bool, migrationCompleted: bool)

  /** Where the try block of an activation can be when one of its operations fails. */
  predicate Undoable(s: DiskState, t: Transaction, p: Progress, b: Baseline) {
    && Inv(s, b) && s.record.Some? && s.record == Some(WithPhase(t, s.record.value.phase))
    && s.record.value.phase in {Ready, Snapshotting, Switching, Migrating, Verifying}
    && DataKept(s, t, b)
    && (!p.replaced && !p.installed ==> PreviousState(s, t, b))
    && (p.replaced <==> ReplacedDir(t) in s.dirs)
    && (SameRevision(t) && p.installed ==> p.replaced)
    && (p.replaced && !p.installed ==> TargetDir(t) !in s.dirs)
    && (p.migrationStarted ==> MigrationRequired(t))
    && (p.migrationCompleted ==> p.migrationStarted)
    && (t.id in s.snapshots ==> MigrationRequired(t))
  }

  function FailureOf(p: Progress): Failure {
    if p.migrationStarted && !p.migrationCompleted then DataMigrationFailed
    else if p.installed then VerificationFailed
    else SwitchFailed
  }

  /** Up to the recorded decision to switch: snapshot first if the data format will change. */
  method BeginSwitch(disk: Disk, t0: Transaction, hasMigration: bool, ghost b: Baseline) returns (o: Outcome)
    requires disk.st.record == Some(t0) && t0 == WithPhase(t0, Ready) && Inv(disk.st, b)
    modifies disk
    ensures disk.faults >= old(disk.faults) && Inv(disk.st, b)
    ensures o.Failed? ==> Undoable(disk.st, t0, Progress(false, false, false, false), b)
    ensures o.Done? ==>
              && (MigrationRequired(t0) ==> hasMigration)
              && disk.st == old(disk.st).(record := Some(WithPhase(t0, Switching)), snapshots := disk.st.snapshots)
    ensures disk.faults == old(disk.faults) && (MigrationRequired(t0) ==> hasMigration) ==> o.Done?
    ensures MigrationRequired(t0) && !hasMigration ==> o.Failed? && disk.st == old(disk.st)
    ensures t0.id in disk.st.snapshots ==> hasMigration
    ensures IsOf(disk.st, t0)
  {
    if MigrationRequired(t0) {
      if !hasMigration { return Outcome.Failed; }
      o := disk.WriteRecord(WithPhase(t0, Snapshotting));
      if !o.Done? { return; }
      o := disk.CreateSnapshot(t0.id);
      if !o.Done? { return; }
    }
    o := disk.WriteRecord(WithPhase(t0, Switching));
  }

  /** Set a same-named release aside, then move the candidate to its final name. */
  method MoveIntoPlace(disk: Disk, t0: Transaction, ghost b: Baseline) returns (o: Outcome, p: Progress)
    requires Inv(disk.st, b) && disk.st.record == Some(WithPhase(t0, Switching))
    requires disk.st.current == t0.previous && ReplacedDir(t0) !in disk.st.dirs
    requires !b.torn ==> t0.candidate.directory in disk.st.dirs
    modifies disk
    ensures disk.faults >= old(disk.faults)
    ensures Inv(disk.st, b) && disk.st == old(disk.st).(dirs := disk.st.dirs)
    ensures !o.Crashed? ==> Undoable(disk.st, t0, p, b)
    ensures o.Done? ==> p == Progress(p.replaced, true, false, false)
                        && HoldsCandidate(disk.st, TargetDir(t0), b) && t0.candidate.directory !in disk.st.dirs
    ensures disk.faults == old(disk.faults) && !b.torn ==> o.Done?
  {
    p := Progress(false, false, false, false);
    var candidate, target, replacement := t0.candidate.directory, TargetDir(t0), ReplacedDir(t0);
    var targetExists, replacementExists, waited;
    o, targetExists := disk.Exists(target);
    if !o.Done? { return; }
    if targetExists {
      o, replacementExists := disk.Exists(replacement);
      if !o.Done? { return; }
      if replacementExists { return Outcome.Failed, p; }
      o, waited := SwitchDirectory(disk, target, replacement);
      if !o.Done? { return; }
      p := p.(replaced := true);
    }
    o, waited := SwitchDirectory(disk, candidate, target);
    if !o.Done? { return; }
    p := p.(installed := true);
  }

  /** Point at the target and migrate the data if its format changes. */
  method PointAndMigrate(disk: Disk, t0: Transaction, p0: Progress, ghost b: Baseline) returns (o: Outcome, p: Progress)
    requires Undoable(disk.st, t0, p0, b) && disk.st.record == Some(WithPhase(t0, Switching))
    requires p0 == Progress(p0.replaced, true, false, false)
    requires HoldsCandidate(disk.st, TargetDir(t0), b) && t0.candidate.directory !in disk.st.dirs
    modifies disk
    ensures disk.faults >= old(disk.faults) && (!o.Done? ==> disk.faults > old(disk.faults))
    ensures Undoable(disk.st, t0, p, b) && p.installed
    ensures disk.st == old(disk.st).(record := disk.st.record, current := disk.st.current, data := disk.st.data)
    ensures o.Done? ==> Switched(disk.st, t0, b) && (t0.id in disk.st.snapshots <==> MigrationRequired(t0))
  {
    p := p0;
    o := disk.PointTo(Some(TargetOf(t0)));
    if !o.Done? { return; }
    if MigrationRequired(t0) {
      o := disk.WriteRecord(WithPhase(t0, Migrating));
      if !o.Done? { return; }
      p := p.(migrationStarted := true);
      o := disk.Migrate(t0.candidate.dataFormat);
      if !o.Done? { return; }
      p := p.(migrationCompleted := true);
    }
  }

  /** A verified switch may be committed. */
  lemma CommitKeepsInv(s: DiskState, t: Transaction, custom: bool, b: Baseline)
    requires Inv(s, b) && s.record == Some(t) && t.phase.Verifying?
    requires if custom then b.custom else Verified(s.dirs[TargetDir(t)], TargetOf(t))
    ensures Inv(s.(record := Some(WithPhase(t, Committed))), b)
  {
    if !custom && HoldsCandidate(s, TargetDir(t), b) {
      VerifiedPartIsWhole(s.dirs[TargetDir(t)], b.staged.value, TargetOf(t));
    }
  }

  lemma VerifyingStaysUndoable(s: DiskState, t0: Transaction, p: Progress, b: Baseline)
    requires Undoable(s, t0, p, b) && p.installed
    requires Switched(s, t0, b) && (t0.id in s.snapshots <==> MigrationRequired(t0))
    ensures Undoable(s.(record := Some(WithPhase(t0, Verifying))), t0, p, b)
  {
  }

  /** Verify the installed target and commit. */
  method VerifyAndCommit(disk: Disk, t0: Transaction, p: Progress, custom: bool, ghost b: Baseline) returns (o: Outcome)
    requires Undoable(disk.st, t0, p, b) && p.installed
    requires Switched(disk.st, t0, b) && (t0.id in disk.st.snapshots <==> MigrationRequired(t0))
    requires custom ==> b.custom
    modifies disk
    ensures disk.faults >= old(disk.faults) && Inv(disk.st, b)
    ensures disk.st == old(disk.st).(record := disk.st.record)
    ensures o.Failed? ==> Undoable(disk.st, t0, p, b)
    ensures o.Done? ==>
              && disk.st.record == Some(WithPhase(t0, Committed))
              && (!custom ==> Verified(disk.st.dirs[TargetDir(t0)], TargetOf(t0)))
    ensures disk.faults == old(disk.faults) && !b.torn ==> o.Done?
    ensures IsOf(disk.st, t0)
  {
    VerifyingStaysUndoable(disk.st, t0, p, b);
    o := disk.WriteRecord(WithPhase(t0, Verifying));
    if !o.Done? { return; }
    o := disk.Verify(TargetDir(t0), TargetOf(t0), custom);
    if !o.Done? { return; }
    CommitKeepsInv(disk.st, WithPhase(t0, Verifying), custom, b);
    o := disk.WriteRecord(WithPhase(t0, Committed));
  }

  /** The try block of an activation. */
  method ActivateTry(disk: Disk, t0: Transaction, hasMigration: bool, custom: bool, ghost b: Baseline)
    returns (o: Outcome, p: Progress)
    requires disk.st.record == Some(t0) && t0 == WithPhase(t0, Ready) && Inv(disk.st, b)
    requires custom ==> b.custom
    modifies disk
    ensures disk.faults >= old(disk.faults) && Inv(disk.st, b)
    ensures o.Failed? ==> Undoable(disk.st, t0, p, b)
    ensures o.Done? ==>
              && disk.st.record == Some(WithPhase(t0, Committed))
              && (!custom ==> Verified(disk.st.dirs[TargetDir(t0)], TargetOf(t0)))
    ensures disk.faults == old(disk.faults) && !b.torn && (MigrationRequired(t0) ==> hasMigration) ==> o.Done?
    ensures MigrationRequired(t0) && !hasMigration ==> o.Failed? && disk.st == old(disk.st)
    ensures t0.id in disk.st.snapshots ==> hasMigration
    ensures IsOf(disk.st, t0)
  {
    p := Progress(false, false, false, false);
    o := BeginSwitch(disk, t0, hasMigration, b);
    if !o.Done? { return; }
    o, p := MoveIntoPlace(disk, t0, b);
    if !o.Done? { return; }
    o, p := PointAndMigrate(disk, t0, p, b);
    if !o.Done? { return; }
    o := VerifyAndCommit(disk, t0, p, custom, b);
  }

  /** The moves are undone: the previous release is current and in its directory. */
  predicate MovesUndone(s: DiskState, t: Transaction, b: Baseline) {
    && s.current == t.previous
    && (t.previous.Some? ==> Holds(s, t.previous.value.directory, b.tree))
  }

  /** Undo the pointer and directory moves, in the process that made them. */
  method UndoMoves(disk: Disk, t: Transaction, p: Progress, ghost b: Baseline) returns (o: Outcome)
    requires Inv(disk.st, b) && t.phase.RollingBack? && disk.st.record == Some(t)
    requires p.replaced || p.installed
    requires p.replaced <==> ReplacedDir(t) in disk.st.dirs
    requires SameRevision(t) && p.installed ==> p.replaced
    requires p.replaced && !p.installed ==> TargetDir(t) !in disk.st.dirs
    modifies disk
    ensures disk.faults >= old(disk.faults) && (!o.Done? ==> disk.faults > old(disk.faults))
    ensures Inv(disk.st, b)
    ensures disk.st == old(disk.st).(dirs := disk.st.dirs, current := disk.st.current)
    ensures o.Done? ==> MovesUndone(disk.st, t, b)
  {
    var target, replacement := TargetDir(t), ReplacedDir(t);
    o := disk.PointTo(t.previous);
    if !o.Done? { return; }
    if p.installed {
      o := disk.Remove(target);
      if !o.Done? { return; }
    }
    if p.replaced {
      var present, waited;
      o, present := disk.Exists(replacement);
      if !o.Done? { return; }
      if present {
        o, waited := SwitchDirectory(disk, replacement, target);
        if !o.Done? { return; }
      }
    }
  }

  method RestoreIfSnapshot(disk: Disk, id: string, hasMigration: bool) returns (o: Outcome)
    modifies disk
    ensures disk.faults >= old(disk.faults)
    ensures id !in old(disk.st).snapshots ==> disk.st == old(disk.st)
    ensures id in old(disk.st).snapshots ==>
              disk.st == old(disk.st) || disk.st == old(disk.st).(data := old(disk.st).snapshots[id])
    ensures o.Done? && id in old(disk.st).snapshots ==> disk.st == old(disk.st).(data := old(disk.st).snapshots[id])
    ensures disk.faults == old(disk.faults) && (id in old(disk.st).snapshots ==> hasMigration) ==> o.Done?
  {
    o := disk.Environment();
    if !o.Done? { return; }
    if id in disk.st.snapshots {
      if !hasMigration { return Outcome.Failed; }
      o := disk.RestoreSnapshot(id);
    }
  }

  /** Bring the data back and close the transaction as rolled back. */
  method FinishRollback(disk: Disk, t: Transaction, hasMigration: bool, ghost b: Baseline) returns (o: Outcome)
    requires Inv(disk.st, b) && t.phase.RollingBack? && disk.st.record == Some(t) && MovesUndone(disk.st, t, b)
    modifies disk
    ensures disk.faults >= old(disk.faults)
    ensures Inv(disk.st, b)
    ensures o.Done? ==> disk.st.record == Some(WithPhase(t, RolledBack, t.failure)) && disk.st.data == b.data
    ensures disk.faults == old(disk.faults) && (t.id in disk.st.snapshots ==> hasMigration) ==> o.Done?
    ensures disk.st == old(disk.st).(data := disk.st.data, record := disk.st.record)
    ensures o.Failed? ==> disk.st.record == old(disk.st).record
    ensures IsOf(disk.st, t)
  {
    o := RestoreIfSnapshot(disk, t.id, hasMigration);
    if !o.Done? { return; }
    o := disk.WriteRecord(WithPhase(t, RolledBack, t.failure));
  }

  /** Undo, in the process that made the moves. */
  method UndoActivation(disk: Disk, t0: Transaction, p: Progress, hasMigration: bool, ghost b: Baseline)
    returns (o: Outcome)
    requires Undoable(disk.st, t0, p, b) && (p.replaced || p.installed)
    modifies disk
    ensures disk.faults >= old(disk.faults)
    ensures !o.Failed? ==> Inv(disk.st, b)
    ensures o.Done? ==> disk.st.record == Some(WithPhase(t0, RolledBack, FailureOf(p)))
    ensures disk.faults == old(disk.faults) && (t0.id in disk.st.snapshots ==> hasMigration) ==> o.Done?
    ensures disk.st.snapshots == old(disk.st).snapshots
    ensures o.Failed? ==> NothingLost(disk.st, t0, b)
    ensures IsOf(disk.st, t0)
  {
    var t := WithPhase(t0, RollingBack, FailureOf(p));
    o := disk.WriteRecord(t);
    if !o.Done? { return; }
    o := UndoMoves(disk, t, p, b);
    if !o.Done? { return; }
    o := FinishRollback(disk, t, hasMigration, b);
  }

  function Overwritten(s: DiskState): DiskState
    requires s.record.Some?
  {
    s.(record := Some(WithPhase(s.record.value, Phase.Failed, SwitchFailed)))
  }

  /**
   Activate the ready candidate. Called on a disk whose record is not `Ready` it overwrites the
   record with `Failed` and changes nothing else.
   */
  method Activate(disk: Disk, hasMigration: bool, custom: bool, ghost b: Baseline) returns (exit: Exit)
    requires Inv(disk.st, b)
    requires custom ==> b.custom
    modifies disk
    ensures disk.faults >= old(disk.faults)
    ensures IsReady(old(disk.st)) && !exit.RollbackBroken? ==> Inv(disk.st, b)
    ensures exit.Returned? ==>
              && IsReady(old(disk.st)) && disk.st.record == Some(WithPhase(old(disk.st).record.value, Committed))
              && (!custom ==> Verified(disk.st.dirs[TargetDir(disk.st.record.value)], TargetOf(disk.st.record.value)))
    ensures exit.RollbackBroken? ==> IsReady(old(disk.st)) && disk.faults > old(disk.faults)
    ensures exit.Threw? && IsReady(old(disk.st)) ==> PreviousState(disk.st, old(disk.st).record.value, b)
    ensures (disk.faults == old(disk.faults) && IsReady(old(disk.st)) && !b.torn
             && (MigrationRequired(old(disk.st).record.value) ==> hasMigration)) ==> exit.Returned?
    ensures !IsReady(old(disk.st)) ==>
              && !exit.Returned?
              && (disk.st == old(disk.st)
                  || (old(disk.st).record.Some? && disk.st == Overwritten(old(disk.st))))
    ensures exit.RollbackBroken? ==> NothingLost(disk.st, old(disk.st).record.value, b)
    ensures old(disk.st).record.Some? ==> IsOf(disk.st, old(disk.st).record.value)
    ensures exit.Threw? && IsReady(old(disk.st)) ==>
              disk.st.record.value.phase in {RolledBack, Phase.Failed} || disk.faults > old(disk.faults)
  {
    if disk.st.record.None? { return Threw; }
    var t0 := disk.st.record.value;
    var o;
    if !t0.phase.Ready? {
      o := disk.WriteRecord(WithPhase(t0, Phase.Failed, SwitchFailed));
      return if o.Crashed? then Died else Threw;
    }
    var p;
    o, p := ActivateTry(disk, t0, hasMigration, custom, b);
    if o.Done? { return Returned; }
    if o.Crashed? { return Died; }
    if !p.replaced && !p.installed {
      o := disk.WriteRecord(WithPhase(t0, Phase.Failed, SwitchFailed));
      return if o.Crashed? then Died else Threw;
    }
    o := UndoActivation(disk, t0, p, hasMigration, b);
    if o.Done? { return Threw; }
    if o.Crashed? { return Died; }
    o := disk.WriteRecord(WithPhase(t0, Phase.Failed, RollbackFailed));
    return RollbackBroken;
  }

  // ---------------------------------------------------------------- recovery

  lemma MayRollBack(s: DiskState, t0: Transaction, b: Baseline)
    requires Inv(s, b) && s.record == Some(t0)
    requires t0.phase in {Staging, Snapshotting, Switching, Migrating, Verifying, RollingBack}
    ensures NothingLost(s, t0, b) && Inv(s.(record := Some(WithPhase(t0, RollingBack, Interrupted))), b)
  {
  }

  /** The previous release's files, with the pointer already back at it. */
  method PutPreviousBack(disk: Disk, t: Transaction, candidateExists: bool, replacementExists: bool, ghost b: Baseline)
    returns (o: Outcome)
    requires Inv(disk.st, b) && t.phase.RollingBack? && disk.st.record == Some(t) && disk.st.current == t.previous
    requires candidateExists == (t.candidate.directory in disk.st.dirs)
    requires replacementExists == (ReplacedDir(t) in disk.st.dirs)
    modifies disk
    ensures disk.faults >= old(disk.faults) && (!o.Done? ==> disk.faults > old(disk.faults))
    ensures Inv(disk.st, b) && disk.st == old(disk.st).(dirs := disk.st.dirs)
    ensures o.Done? ==> MovesUndone(disk.st, t, b)
  {
    o := Outcome.Done;
    if replacementExists {
      o := disk.Remove(TargetDir(t));
      if !o.Done? { return; }
      o := disk.Rename(ReplacedDir(t), TargetDir(t));
    } else if !candidateExists && (t.previous.None? || t.previous.value.revision != t.candidate.revision) {
      o := disk.Remove(TargetDir(t));
    }
  }

  method RollbackMoves(disk: Disk, t: Transaction, ghost b: Baseline) returns (o: Outcome)
    requires Inv(disk.st, b) && t.phase.RollingBack? && disk.st.record == Some(t)
    modifies disk
    ensures disk.faults >= old(disk.faults) && (!o.Done? ==> disk.faults > old(disk.faults))
    ensures Inv(disk.st, b)
    ensures disk.st == old(disk.st).(dirs := disk.st.dirs, current := disk.st.current)
    ensures o.Done? ==> MovesUndone(disk.st, t, b) && t.candidate.directory !in disk.st.dirs
  {
    var candidate, replacement := t.candidate.directory, ReplacedDir(t);
    var candidateExists, replacementExists;
    o, candidateExists := disk.Exists(candidate);
    if !o.Done? { return; }
    o, replacementExists := disk.Exists(replacement);
    if !o.Done? { return; }
    o := disk.PointTo(t.previous);
    if !o.Done? { return; }
    o := PutPreviousBack(disk, t, candidateExists, replacementExists, b);
    if !o.Done? { return; }
    o := disk.Remove(candidate);
  }

  /**
   Undo what a dead process did, from what the disk still shows. `t` is the record as found; the
   process that made the moves is gone, so the directories say which of them happened.
   */
  method Rollback(disk: Disk, t0: Transaction, hasMigration: bool, ghost b: Baseline) returns (o: Outcome)
    requires Inv(disk.st, b) && disk.st.record == Some(t0)
    requires t0.phase in {Staging, Snapshotting, Switching, Migrating, Verifying, RollingBack}
    modifies disk
    ensures disk.faults >= old(disk.faults)
    ensures Inv(disk.st, b)
    ensures disk.st.snapshots == old(disk.st).snapshots
    ensures o.Done? ==> disk.st.record == Some(WithPhase(t0, RolledBack, Interrupted))
                        && disk.st.data == b.data && t0.candidate.directory !in disk.st.dirs
    ensures disk.faults == old(disk.faults) && (t0.id in disk.st.snapshots ==> hasMigration) ==> o.Done?
    ensures o.Failed? ==> NothingLost(disk.st, t0, b)
    ensures IsOf(disk.st, t0)
  {
    var t := WithPhase(t0, RollingBack, Interrupted);
    MayRollBack(disk.st, t0, b);
    o := disk.WriteRecord(t);
    if !o.Done? { return; }
    o := RollbackMoves(disk, t, b);
    if !o.Done? { return; }
    o := FinishRollback(disk, t, hasMigration, b);
  }

  predicate Settled(p: Phase) { p.Ready? || Terminal(p) }

  /** The directories and the pointer show a finished switch. */
  predicate LooksSwitched(s: DiskState, t: Transaction) {
    && TargetDir(t) in s.dirs && t.candidate.directory !in s.dirs
    && s.current == Some(TargetOf(t))
    && !(t.phase.Switching? && t.id in s.snapshots)
  }

  /** ... and the target passes the check once more, which a check of the caller's own always may. */
  predicate SwitchStands(s: DiskState, t: Transaction, custom: bool) {
    && t.phase in {Switching, Verifying} && LooksSwitched(s, t)
    && (custom || Verified(s.dirs[TargetDir(t)], TargetOf(t)))
  }

  /**
   How recovery may end an unfinished transaction: committed only where a switch stands, and always
   where one stands, unless an operation fails.
   */
  predicate EndsRightly(s: DiskState, t: Transaction, custom: bool, s': DiskState, faultless: bool) {
    || (SwitchStands(s, t, custom) && s'.record == Some(WithPhase(t, Committed)))
    || (!(faultless && SwitchStands(s, t, custom)) && s'.record == Some(WithPhase(t, RolledBack, Interrupted)))
  }

  /** What looks like a finished switch is one, or the previous release under the target's own name. */
  lemma LooksSwitchedIsSwitched(s: DiskState, t: Transaction, b: Baseline)
    requires Inv(s, b) && s.record == Some(t) && t.phase in {Switching, Verifying} && LooksSwitched(s, t)
    ensures Switched(s, t, b) && NothingLost(s, t, b)
    ensures Inv(s.(record := Some(WithPhase(t, Verifying))), b)
  {
  }

  /** Verify the switched target again; commit it, or undo the switch. */
  method Complete(disk: Disk, t: Transaction, hasMigration: bool, custom: bool, ghost b: Baseline) returns (o: Outcome)
    requires Inv(disk.st, b) && disk.st.record == Some(t) && t.phase in {Switching, Verifying}
             && LooksSwitched(disk.st, t)
    requires custom ==> b.custom
    modifies disk
    ensures disk.faults >= old(disk.faults) && Inv(disk.st, b)
    ensures disk.st.snapshots == old(disk.st).snapshots
    ensures o.Done? ==> EndsRightly(old(disk.st), t, custom, disk.st, disk.faults == old(disk.faults))
    ensures o.Done? && !custom && disk.st.record == Some(WithPhase(t, Committed)) ==>
              Verified(disk.st.dirs[TargetDir(t)], TargetOf(t))
    ensures disk.faults == old(disk.faults) && (t.id in disk.st.snapshots ==> hasMigration) ==> o.Done?
    ensures o.Failed? ==> NothingLost(disk.st, t, b)
    ensures IsOf(disk.st, t)
  {
    LooksSwitchedIsSwitched(disk.st, t, b);
    o := disk.WriteRecord(WithPhase(t, Verifying));
    if !o.Done? { return; }
    o := disk.Verify(TargetDir(t), TargetOf(t), custom);
    if o.Failed? {
      o := Rollback(disk, WithPhase(t, Verifying), hasMigration, b);
    } else if o.Done? {
      CommitKeepsInv(disk.st, WithPhase(t, Verifying), custom, b);
      o := disk.WriteRecord(WithPhase(t, Committed));
    }
  }

  /** A process died while switching or verifying: commit if the switch looks finished, else undo. */
  method CompleteOrRollback(disk: Disk, t: Transaction, hasMigration: bool, custom: bool, ghost b: Baseline)
    returns (o: Outcome)
    requires Inv(disk.st, b) && disk.st.record == Some(t) && t.phase in {Switching, Verifying}
    requires custom ==> b.custom
    modifies disk
    ensures disk.faults >= old(disk.faults) && Inv(disk.st, b)
    ensures disk.st.snapshots == old(disk.st).snapshots
    ensures o.Done? ==> EndsRightly(old(disk.st), t, custom, disk.st, disk.faults == old(disk.faults))
    ensures o.Done? && !custom && disk.st.record == Some(WithPhase(t, Committed)) ==>
              Verified(disk.st.dirs[TargetDir(t)], TargetOf(t))
    ensures disk.faults == old(disk.faults) && (t.id in disk.st.snapshots ==> hasMigration) ==> o.Done?
    ensures o.Failed? ==> NothingLost(disk.st, t, b)
    ensures IsOf(disk.st, t)
  {
    o := disk.Environment();
    if !o.Done? { return; }
    if !LooksSwitched(disk.st, t) {
      o := Rollback(disk, t, hasMigration, b);
      return;
    }
    o := Complete(disk, t, hasMigration, custom, b);
  }

  /** The outer handler: an operation that failed, of whatever kind, is recorded as a failed rollback. */
  method Close(disk: Disk, t: Transaction, o: Outcome) returns (exit: Exit)
    modifies disk
    ensures disk.faults >= old(disk.faults)
    ensures o.Done? ==> exit.Returned? && disk.st == old(disk.st) && disk.faults == old(disk.faults)
    ensures o.Crashed? ==> exit.Died? && disk.st == old(disk.st) && disk.faults == old(disk.faults)
    ensures o.Failed? ==> exit.RollbackBroken?
    ensures disk.st == old(disk.st).(record := disk.st.record)
    ensures IsOf(old(disk.st), t) ==> IsOf(disk.st, t)
  {
    match o
    case Done => exit := Returned;
    case Crashed => exit := Died;
    case Failed =>
      var ignored := disk.WriteRecord(WithPhase(t, Phase.Failed, RollbackFailed));
      exit := RollbackBroken;
  }

  /** Finish or undo whatever a dead process left behind. */
  method Recover(disk: Disk, hasMigration: bool, custom: bool, ghost b: Baseline) returns (exit: Exit)
    requires Inv(disk.st, b)
    requires custom ==> b.custom
    modifies disk
    ensures disk.faults >= old(disk.faults)
    ensures !exit.RollbackBroken? ==> Inv(disk.st, b)
    ensures old(disk.st).record.None? || Settled(old(disk.st).record.value.phase) ==>
              exit.Returned? && disk.st == old(disk.st)
    ensures exit.Returned? && old(disk.st).record.Some? && !Settled(old(disk.st).record.value.phase) ==>
              var t := old(disk.st).record.value;
              && EndsRightly(old(disk.st), t, custom, disk.st, disk.faults == old(disk.faults))
              && (!custom && disk.st.record == Some(WithPhase(t, Committed)) ==>
                    Verified(disk.st.dirs[TargetDir(t)], TargetOf(t)))
    ensures !exit.Threw?
    ensures disk.faults == old(disk.faults)
            && (old(disk.st).record.Some? && old(disk.st).record.value.id in old(disk.st).snapshots ==> hasMigration)
            ==> exit.Returned?
    ensures exit.RollbackBroken? ==> old(disk.st).record.Some? && NothingLost(disk.st, old(disk.st).record.value, b)
    ensures old(disk.st).record.Some? ==> IsOf(disk.st, old(disk.st).record.value)
  {
    if disk.st.record.None? || Settled(disk.st.record.value.phase) { return Returned; }
    var t := disk.st.record.value;
    var o: Outcome;
    if t.phase in {Staging, Snapshotting, Migrating, RollingBack} {
      o := Rollback(disk, t, hasMigration, b);
    } else {
      o := CompleteOrRollback(disk, t, hasMigration, custom, b);
    }
    exit := Close(disk, t, o);
  }

  // ---------------------------------------------------------------- cleanup

  /** A listing of the releases directory. */
  predicate Lists(entries: seq<DirName>, dirs: map<DirName, Tree>) {
    (forall n :: n in entries ==> n in dirs) && (forall n :: n in dirs ==> n in entries)
  }

  /**
   Remove every release directory but the current one, then the transaction's snapshot. What could
   not be removed is reported, not fatal.
   */
  method Cleanup(disk: Disk, entries: seq<DirName>, ghost b: Baseline)
    returns (exit: Exit, removed: seq<DirName>, failed: seq<DirName>)
    requires Inv(disk.st, b) && Lists(entries, disk.st.dirs)
    modifies disk
    ensures disk.faults >= old(disk.faults)
    ensures Inv(disk.st, b) && !exit.RollbackBroken?
    ensures !MayStage(old(disk.st)) ==> exit.Threw? && disk.st == old(disk.st)
    ensures disk.st == old(disk.st).(dirs := disk.st.dirs, snapshots := disk.st.snapshots)
    ensures forall n :: n in disk.st.dirs ==> n in old(disk.st).dirs
    ensures disk.st.current.Some? && disk.st.current.value.directory in old(disk.st).dirs && MayStage(old(disk.st)) ==>
              Holds(disk.st, disk.st.current.value.directory, Some(old(disk.st).dirs[disk.st.current.value.directory]))
    ensures exit.Returned? ==>
              (forall n :: n in removed ==> n !in disk.st.dirs)
              && (forall n :: n in old(disk.st).dirs && (disk.st.current.Some? ==> n != disk.st.current.value.directory)
                    ==> n in removed || n in failed)
    ensures disk.faults == old(disk.faults) && MayStage(old(disk.st)) ==> exit.Returned? && failed == []
    ensures disk.st.record.None? ==> disk.st.snapshots == old(disk.st).snapshots
    ensures disk.st.record.Some? ==> SameExcept(old(disk.st).snapshots, disk.st.snapshots, disk.st.record.value.id)
    ensures disk.faults == old(disk.faults) && MayStage(old(disk.st)) && disk.st.record.Some? ==>
              disk.st.record.value.id !in disk.st.snapshots
  {
    removed, failed := [], [];
    if !MayStage(disk.st) { return Threw, [], []; }
    for i := 0 to |entries|
      invariant disk.faults >= old(disk.faults)
      invariant disk.st == old(disk.st).(dirs := disk.st.dirs)
      invariant forall n :: n in disk.st.dirs ==> n in old(disk.st).dirs
      invariant disk.st.current.Some? && disk.st.current.value.directory in old(disk.st).dirs ==>
                  Holds(disk.st, disk.st.current.value.directory,
                        Some(old(disk.st).dirs[disk.st.current.value.directory]))
      invariant forall n :: n in removed ==> n !in disk.st.dirs
      invariant forall k :: 0 <= k < i && (disk.st.current.Some? ==> entries[k] != disk.st.current.value.directory)
                  ==> entries[k] in removed || entries[k] in failed
      invariant disk.faults == old(disk.faults) ==> failed == []
    {
      if disk.st.current.None? || disk.st.current.value.directory != entries[i] {
        var o := disk.Remove(entries[i]);
        OnlyCurrentMatters(old(disk.st), disk.st, b);
        match o {
          case Done => removed := removed + [entries[i]];
          case Failed => failed := failed + [entries[i]];
          case Crashed => return Died, removed, failed;
        }
      }
    }
    OnlyCurrentMatters(old(disk.st), disk.st, b);
    if disk.st.record.Some? && disk.st.record.value.id in disk.st.snapshots {
      var o := disk.DiscardSnapshot(disk.st.record.value.id);
      OnlyCurrentMatters(old(disk.st), disk.st, b);
      if o.Crashed? { return Died, removed, failed; }
    }
    exit := Returned;
  }
}
