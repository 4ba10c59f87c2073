/**
 What a user can rely on over any history of installer operations, started from an intact
 installation, with any number of failed operations and crashes.
 */
module InstallHistory {
  import opened Common
  import opened InstallDisk
  import opened InstallSpec
  import opened InstallTransaction

  datatype Op =
    | StageOp(source: Source, expectedTarget: string, id: string, consume: bool)
    | ActivateOp(custom: bool)
    | DiscardOp
    | RecoverOp(custom: bool)
    | CleanupOp(entries: seq<DirName>)
    | WorkOp(data: UserData)

  /**
   What a committed release directory can be: the whole verified candidate. Only after a torn
   discard there are two more cases: the release that was installed before, when the target is that
   very release; and, if a check other than inventory verification was used, a part of the candidate.
   */
  predicate CommittedTree(tree: Tree, t: Transaction, b: Baseline, begun: DiskState) {
    || (Some(tree) == b.staged && Verified(tree, TargetOf(t)))
    || (b.torn && t.previous == Some(TargetOf(t)) && TargetDir(t) in begun.dirs && tree == begun.dirs[TargetDir(t)])
    || (b.torn && b.custom && b.staged.Some? && PartOf(tree, b.staged.value))
  }

  /**
   The promise at a state where a transaction has ended. `begun` is the state in which it was
   staged, `before` the state whose data its activation found.
   */
  predicate Promise(s: DiskState, b: Baseline, begun: DiskState, before: DiskState) {
    s.record.Some? ==>
      var t := s.record.value;
      && (t.phase.Committed? ==>
            && s.current == Some(TargetOf(t)) && TargetDir(t) in s.dirs
            && CommittedTree(s.dirs[TargetDir(t)], t, b, begun)
            && (!b.custom ==> Verified(s.dirs[TargetDir(t)], TargetOf(t)))
            && (!b.edited ==> s.data == if MigrationRequired(t) then Migrated(before.data, t.candidate.dataFormat)
                                        else before.data))
      && (t.phase.RolledBack? || t.phase.Failed? ==>
            && s.current == begun.current == t.previous
            && (s.current.Some? ==>
                  var n := s.current.value.directory;
                  n in s.dirs && n in begun.dirs && s.dirs[n] == begun.dirs[n])
            && (!b.edited ==> s.data == before.data))
  }

  predicate Started(s: DiskState, b: Baseline, begun: DiskState, before: DiskState) {
    s.record.Some? ==>
      && b == NewBaseline(begun).(data := b.data, staged := b.staged, edited := b.edited, torn := b.torn,
                                                  custom := b.custom)
      && (begun.current.Some? ==> begun.current.value.directory in begun.dirs)
      && b.data == before.data
  }

  lemma InvPromises(s: DiskState, b: Baseline, begun: DiskState, before: DiskState)
    requires Inv(s, b) && Started(s, b, begun, before)
    ensures Promise(s, b, begun, before)
  {
  }

  predicate Quiet(s: DiskState) {
    s.record.None? || s.record.value.phase.Staging? || Settled(s.record.value.phase)
  }

  /** The product works on its data: not while an activation is under way or interrupted. */
  method Work(disk: Disk, data: UserData, ghost b0: Baseline) returns (ghost b: Baseline)
    requires Inv(disk.st, b0) && Quiet(disk.st)
    modifies disk
    ensures disk.st == old(disk.st).(data := data) && Inv(disk.st, b) && disk.faults == old(disk.faults)
    ensures b == if MayStage(old(disk.st)) then b0.(edited := true) else b0.(data := data)
  {
    b := if MayStage(disk.st) then b0.(edited := true) else b0.(data := data);
    disk.UserWork(data);
  }

  predicate UsesCustomCheck(op: Op) { (op.ActivateOp? || op.RecoverOp?) && op.custom }

  /** Remembering that a custom check may be used. */
  lemma MayUseCustom(s: DiskState, b: Baseline, custom: bool)
    requires Inv(s, b)
    ensures Inv(s, b.(custom := b.custom || custom))
  {
  }

  /** The product works on data that a staged transaction will find. */
  predicate WorksBefore(s: DiskState, op: Op) { op.WorkOp? && Quiet(s) && !MayStage(s) }

  /** The product works on the data after the transaction has ended. */
  predicate WorksAfter(s: DiskState, op: Op) { op.WorkOp? && MayStage(s) }

  /** The operation staged a payload: a new transaction, with what the disk held as its baseline. */
  predicate Stages(s: DiskState, s': DiskState, op: Op, b: Baseline) {
    op.StageOp? && StagedAs(s, s', op.source, op.id, b)
  }

  /** The operation belongs to the transaction there was, and changes of its baseline only what it must. */
  predicate Continues(s: DiskState, s': DiskState, op: Op, b: Baseline, b': Baseline) {
    && (if s.record.Some? then IsOf(s', s.record.value) else s'.record.None?)
    && b' == b.(data := if WorksBefore(s, op) then s'.data else b.data, edited := b.edited || WorksAfter(s, op),
                torn := b'.torn, custom := b'.custom)
    && (b'.custom ==> b.custom || UsesCustomCheck(op))
    && (b'.torn ==> b.torn || op.DiscardOp?)
  }

  /** What an operation that applies comes to when nothing fails. */
  predicate TakesEffect(s: DiskState, s': DiskState, op: Op, hasMigration: bool, b: Baseline) {
    match op
    case StageOp(source, expectedTarget, id, _) =>
      FreshId(s, id) && StageAccepts(s, source, id, expectedTarget) ==>
        s'.record == Some(WithPhase(NewTransaction(s, source, id), Ready))
    case ActivateOp(_) =>
      IsReady(s) && !b.torn && (MigrationRequired(s.record.value) ==> hasMigration) ==>
        s'.record == Some(WithPhase(s.record.value, Committed))
    case DiscardOp =>
      IsReady(s) ==>
        && s'.record == Some(WithPhase(s.record.value, Phase.Failed, StableFilesFailed))
        && s.record.value.candidate.directory !in s'.dirs
    case RecoverOp(custom) =>
      s.record.Some? && !Settled(s.record.value.phase) && (s.record.value.id in s.snapshots ==> hasMigration) ==>
        EndsRightly(s, s.record.value, custom, s', true)
    case CleanupOp(entries) =>
      Lists(entries, s.dirs) && MayStage(s) ==>
        && (forall n :: n in s'.dirs ==> s.current.Some? && n == s.current.value.directory)
        && (s.record.Some? ==> s.record.value.id !in s'.snapshots)
    case WorkOp(data) => Quiet(s) ==> s'.data == data
  }

  method PerformActivation(disk: Disk, op: Op, hasMigration: bool, ghost b0: Baseline)
    returns (broken: bool, ghost b: Baseline)
    requires Inv(disk.st, b0) && op.ActivateOp? && IsReady(disk.st)
    modifies disk
    ensures !broken ==> Inv(disk.st, b) && Continues(old(disk.st), disk.st, op, b0, b)
    ensures broken ==> NothingLost(disk.st, old(disk.st).record.value, b0)
    ensures disk.faults >= old(disk.faults)
    ensures disk.faults == old(disk.faults) ==> TakesEffect(old(disk.st), disk.st, op, hasMigration, b0)
  {
    MayUseCustom(disk.st, b0, op.custom);
    b := b0.(custom := b0.custom || op.custom);
    var exit := Activate(disk, hasMigration, op.custom, b);
    broken := exit.RollbackBroken?;
  }

  method PerformRecovery(disk: Disk, op: Op, hasMigration: bool, ghost b0: Baseline)
    returns (broken: bool, ghost b: Baseline)
    requires Inv(disk.st, b0) && op.RecoverOp?
    modifies disk
    ensures !broken ==> Inv(disk.st, b) && Continues(old(disk.st), disk.st, op, b0, b)
    ensures broken ==> old(disk.st).record.Some? && NothingLost(disk.st, old(disk.st).record.value, b0)
    ensures disk.faults >= old(disk.faults)
    ensures disk.faults == old(disk.faults) ==> TakesEffect(old(disk.st), disk.st, op, hasMigration, b0)
  {
    MayUseCustom(disk.st, b0, op.custom);
    b := b0.(custom := b0.custom || op.custom);
    var exit := Recover(disk, hasMigration, op.custom, b);
    broken := exit.RollbackBroken?;
  }

  /** One operation. Ids are fresh, and activation is only asked for when a candidate is ready. */
  method Perform(disk: Disk, op: Op, hasMigration: bool, ghost b0: Baseline) returns (broken: bool, ghost b: Baseline)
    requires Inv(disk.st, b0)
    modifies disk
    ensures !broken ==> Inv(disk.st, b)
    ensures !broken ==> Stages(old(disk.st), disk.st, op, b) || Continues(old(disk.st), disk.st, op, b0, b)
    ensures broken ==> old(disk.st).record.Some? && NothingLost(disk.st, old(disk.st).record.value, b0)
    ensures disk.faults >= old(disk.faults)
    ensures disk.faults == old(disk.faults) ==> TakesEffect(old(disk.st), disk.st, op, hasMigration, b0)
  {
    broken, b := false, b0;
    match op
    case StageOp(source, expectedTarget, id, consume) =>
      if FreshId(disk.st, id) {
        var exit;
        exit, b := Stage(disk, source, expectedTarget, id, consume, b0);
      }
    case ActivateOp(custom) =>
      if IsReady(disk.st) { broken, b := PerformActivation(disk, op, hasMigration, b0); }
    case DiscardOp =>
      var exit;
      exit, b := Discard(disk, b0);
    case RecoverOp(custom) => broken, b := PerformRecovery(disk, op, hasMigration, b0);
    case CleanupOp(entries) =>
      if Lists(entries, disk.st.dirs) {
        var exit, removed, failed := Cleanup(disk, entries, b0);
      }
    case WorkOp(data) =>
      if Quiet(disk.st) { b := Work(disk, data, b0); }
  }

  // ---------------------------------------------------------------- whole histories

  /**
   About one state of a history: the baseline of its transaction, the index of the state in which it
   was staged, and the index of the state whose data its activation finds.
   */
  datatype Mark = Mark(base: Baseline, begun: nat, before: nat)

  /** The mark after an operation follows from the mark before it. */
  predicate Follows(s: DiskState, s': DiskState, op: Op, k: nat, m: Mark, m': Mark) {
    || (Stages(s, s', op, m'.base) && m'.begun == m'.before == k)
    || (Continues(s, s', op, m.base, m'.base) && m'.begun == m.begun
        && m'.before == if WorksBefore(s, op) then k + 1 else m.before)
  }

  /** The marks of a log of states, determined by the operations from the first state on. */
  ghost predicate Trace(log: seq<DiskState>, ops: seq<Op>, marks: seq<Mark>) {
    && 0 < |log| == |marks| <= |ops| + 1
    && Intact(log[0]) && marks[0] == Mark(NewBaseline(log[0]), 0, 0)
    && (forall k :: 0 <= k < |log| - 1 ==> Follows(log[k], log[k+1], ops[k], k, marks[k], marks[k+1]))
  }

  /** A state, what its transaction began from, and its promise. */
  ghost predicate KeptState(s: DiskState, b: Baseline, begun: DiskState, before: DiskState) {
    Inv(s, b) && Started(s, b, begun, before) && Promise(s, b, begun, before)
  }

  /** Every state of the history keeps its promise. */
  ghost predicate Kept(log: seq<DiskState>, marks: seq<Mark>) {
    && |marks| == |log|
    && (forall k :: 0 <= k < |log| ==> marks[k].begun <= k && marks[k].before <= k)
    && (forall k :: 0 <= k < |log| ==> KeptState(log[k], marks[k].base, log[marks[k].begun], log[marks[k].before]))
  }

  function NextMark(s: DiskState, s': DiskState, op: Op, k: nat, m: Mark, b: Baseline): Mark {
    if Stages(s, s', op, b) then Mark(b, k, k) else Mark(b, m.begun, if WorksBefore(s, op) then k + 1 else m.before)
  }

  lemma NextStarted(log: seq<DiskState>, marks: seq<Mark>, s': DiskState, op: Op, m': Mark)
    requires Kept(log, marks) && |log| > 0
    requires var k := |log| - 1; Follows(log[k], s', op, k, marks[k], m')
    ensures m'.begun <= |log| && m'.before <= |log|
    ensures Started(s', m'.base, (log + [s'])[m'.begun], (log + [s'])[m'.before])
  {
    var k := |log| - 1;
    var s, m, log' := log[k], marks[k], log + [s'];
    assert log'[k] == s && log'[k+1] == s';
    if Stages(s, s', op, m'.base) && m'.begun == m'.before == k {
      CurrentIsThere(s, m.base);
    } else {
      assert log'[m.begun] == log[m.begun] && log'[m.before] == log[m.before];
    }
  }

  /** A history with its marks and promises, continued by one operation. */
  lemma HistoryExtends(log: seq<DiskState>, ops: seq<Op>, marks: seq<Mark>, s': DiskState, m': Mark)
    requires Trace(log, ops, marks) && Kept(log, marks) && |log| <= |ops|
    requires var k := |log| - 1; Follows(log[k], s', ops[k], k, marks[k], m') && Inv(s', m'.base)
    ensures Trace(log + [s'], ops, marks + [m']) && Kept(log + [s'], marks + [m'])
  {
    var log', marks' := log + [s'], marks + [m'];
    NextStarted(log, marks, s', ops[|log|-1], m');
    InvPromises(s', m'.base, log'[m'.begun], log'[m'.before]);
    forall k | 0 <= k < |log'|
      ensures marks'[k].begun <= k && marks'[k].before <= k
      ensures KeptState(log'[k], marks'[k].base, log'[marks'[k].begun], log'[marks'[k].before])
    {
      if k < |log| {
        assert log'[k] == log[k] && marks'[k] == marks[k];
        assert log'[marks[k].begun] == log[marks[k].begun] && log'[marks[k].before] == log[marks[k].before];
      }
    }
    forall k | 0 <= k < |log'| - 1 ensures Follows(log'[k], log'[k+1], ops[k], k, marks'[k], marks'[k+1]) {
      assert log'[k] == log[k] && marks'[k] == marks[k];
    }
  }

  /** The state comes from the payload staged by the `j`-th operation, with all states in between. */
  ghost predicate ComesFrom(log: seq<DiskState>, ops: seq<Op>, j: nat, k: nat)
    requires k < |log| <= |ops| + 1
  {
    && j < k && ops[j].StageOp? && MayStage(log[j])
    && (forall n :: j < n <= k ==> IsOf(log[n], NewTransaction(log[j], ops[j].source, ops[j].id)))
  }

  /** The `i`-th state has the data that the transaction staged in the `j`-th finds. */
  ghost predicate LastWork(log: seq<DiskState>, ops: seq<Op>, j: nat, i: nat, k: nat)
    requires k < |log| <= |ops| + 1
  {
    && j <= i <= k && (j < i ==> WorksBefore(log[i-1], ops[i-1]))
    && (forall n :: i <= n < k ==> !WorksBefore(log[n], ops[n]))
  }

  ghost predicate WorkedSince(log: seq<DiskState>, ops: seq<Op>, j: nat, k: nat)
    requires k < |log| <= |ops| + 1
  {
    exists n :: j <= n < k && WorksAfter(log[n], ops[n])
  }

  predicate CustomSince(ops: seq<Op>, j: nat, k: nat)
    requires k <= |ops|
  {
    exists n :: j <= n < k && UsesCustomCheck(ops[n])
  }

  predicate DiscardedSince(ops: seq<Op>, j: nat, k: nat)
    requires k <= |ops|
  {
    exists n :: j <= n < k && ops[n].DiscardOp?
  }

  /** What the mark of a state says, in terms of the history alone. */
  ghost predicate Explained(log: seq<DiskState>, ops: seq<Op>, m: Mark, k: nat)
    requires k < |log| <= |ops| + 1
  {
    log[k].record.Some? ==>
      && ComesFrom(log, ops, m.begun, k) && LastWork(log, ops, m.begun, m.before, k)
      && m.base.staged in {None, Some(ops[m.begun].source.tree)}
      && (m.base.edited <==> WorkedSince(log, ops, m.begun, k))
      && (m.base.custom ==> CustomSince(ops, m.begun, k))
      && (m.base.torn ==> DiscardedSince(ops, m.begun, k))
  }

  lemma ExplainedNext(log: seq<DiskState>, ops: seq<Op>, m: Mark, m': Mark, k: nat)
    requires k + 1 < |log| <= |ops| + 1 && Explained(log, ops, m, k)
    requires Follows(log[k], log[k+1], ops[k], k, m, m')
    ensures Explained(log, ops, m', k + 1)
  {
    var s, s', op := log[k], log[k+1], ops[k];
    if Stages(s, s', op, m'.base) && m'.begun == m'.before == k {
      assert !WorkedSince(log, ops, k, k + 1) && !m'.base.edited;
    } else if s'.record.Some? {
      var j := m.begun;
      assert ComesFrom(log, ops, j, k + 1);
      assert LastWork(log, ops, j, m'.before, k + 1);
      assert WorkedSince(log, ops, j, k + 1) <==> WorkedSince(log, ops, j, k) || WorksAfter(s, op);
      assert CustomSince(ops, j, k + 1) <==> CustomSince(ops, j, k) || UsesCustomCheck(op);
      assert DiscardedSince(ops, j, k + 1) <==> DiscardedSince(ops, j, k) || op.DiscardOp?;
    }
  }

  lemma {:induction false} MarksExplained(log: seq<DiskState>, ops: seq<Op>, marks: seq<Mark>, k: nat)
    requires Trace(log, ops, marks) && k < |log|
    ensures Explained(log, ops, marks[k], k)
  {
    if k > 0 {
      MarksExplained(log, ops, marks, k - 1);
      ExplainedNext(log, ops, marks[k-1], marks[k], k - 1);
    }
  }

  /**
   The promise in terms of the history alone: the transaction was staged by the `j`-th operation, and
   the `i`-th state has the data the product last wrote before it was activated.
   */
  ghost predicate Outcomes(log: seq<DiskState>, ops: seq<Op>, j: nat, i: nat, k: nat)
    requires k < |log| <= |ops| + 1
  {
    && ComesFrom(log, ops, j, k) && LastWork(log, ops, j, i, k)
    && var s, begun, source := log[k], log[j], ops[j].source;
       var phase, revision := s.record.value.phase, source.release.revision;
       var release := source.release.(directory := Installed(revision));
       var migrated := begun.current.Some? && begun.current.value.dataFormat < release.dataFormat;
       && (phase.Committed? ==>
             && s.current == Some(release) && Installed(revision) in s.dirs
             && (!CustomSince(ops, j, k) ==> Verified(s.dirs[Installed(revision)], release))
             && (!DiscardedSince(ops, j, k) || (!CustomSince(ops, j, k) && begun.current != Some(release)) ==>
                   s.dirs[Installed(revision)] == source.tree)
             && (!WorkedSince(log, ops, j, k) ==>
                   s.data == if migrated then Migrated(log[i].data, release.dataFormat) else log[i].data))
       && (phase.RolledBack? || phase.Failed? ==>
             && s.current == begun.current
             && (s.current.Some? ==>
                   var n := s.current.value.directory;
                   n in s.dirs && n in begun.dirs && s.dirs[n] == begun.dirs[n])
             && (!WorkedSince(log, ops, j, k) ==> s.data == log[i].data))
  }

  /** Every ended transaction of a history has ended well. */
  lemma HistoryPromises(log: seq<DiskState>, ops: seq<Op>, marks: seq<Mark>, k: nat)
    requires Trace(log, ops, marks) && Kept(log, marks) && k < |log| && log[k].record.Some?
    ensures Outcomes(log, ops, marks[k].begun, marks[k].before, k)
  {
    MarksExplained(log, ops, marks, k);
  }

  ghost predicate AllOutcomes(log: seq<DiskState>, ops: seq<Op>, marks: seq<Mark>)
    requires |log| == |marks| <= |ops| + 1
  {
    forall k :: 0 <= k < |log| && log[k].record.Some? ==> Outcomes(log, ops, marks[k].begun, marks[k].before, k)
  }

  lemma AllEndWell(log: seq<DiskState>, ops: seq<Op>, marks: seq<Mark>)
    requires Trace(log, ops, marks) && Kept(log, marks)
    ensures AllOutcomes(log, ops, marks)
  {
    forall k | 0 <= k < |log| && log[k].record.Some? ensures Outcomes(log, ops, marks[k].begun, marks[k].before, k) {
      HistoryPromises(log, ops, marks, k);
    }
  }

  /** What a history that could not go on has kept, in terms of the history alone. */
  lemma BrokenKeeps(log: seq<DiskState>, ops: seq<Op>, marks: seq<Mark>, s: DiskState)
    requires Trace(log, ops, marks) && Kept(log, marks)
    requires var k := |log| - 1; log[k].record.Some? && NothingLost(s, log[k].record.value, marks[k].base)
    ensures var k := |log| - 1;
            NothingLost(s, log[k].record.value, NewBaseline(log[marks[k].begun]).(data := log[marks[k].before].data))
  {
  }

  /** Every operation that applied has come to what it is for. */
  ghost predicate Effective(log: seq<DiskState>, ops: seq<Op>, marks: seq<Mark>, hasMigration: bool)
    requires Trace(log, ops, marks)
  {
    forall k :: 0 <= k < |log| - 1 ==> TakesEffect(log[k], log[k+1], ops[k], hasMigration, marks[k].base)
  }

  lemma HistoryGrows(log: seq<DiskState>, ops: seq<Op>, marks: seq<Mark>, s': DiskState, m': Mark, hasMigration: bool,
                     faultless: bool)
    requires Trace(log, ops, marks) && Kept(log, marks) && |log| <= |ops|
    requires faultless ==> Effective(log, ops, marks, hasMigration)
    requires var k := |log| - 1;
             && Follows(log[k], s', ops[k], k, marks[k], m') && Inv(s', m'.base)
             && (faultless ==> TakesEffect(log[k], s', ops[k], hasMigration, marks[k].base))
    ensures Trace(log + [s'], ops, marks + [m']) && Kept(log + [s'], marks + [m'])
    ensures faultless ==> Effective(log + [s'], ops, marks + [m'], hasMigration)
  {
    HistoryExtends(log, ops, marks, s', m');
    var log', marks' := log + [s'], marks + [m'];
    forall k | 0 <= k < |log'| - 1 && faultless
      ensures TakesEffect(log'[k], log'[k+1], ops[k], hasMigration, marks'[k].base)
    {
      assert log'[k] == log[k] && marks'[k] == marks[k];
      if k < |log| - 1 { assert log'[k+1] == log[k+1]; } else { assert log'[k+1] == s'; }
    }
  }

  /** An acceptable payload with a fresh id, staged and then activated without a failure, is installed. */
  lemma InstallationSucceeds(log: seq<DiskState>, ops: seq<Op>, marks: seq<Mark>, hasMigration: bool)
    requires Trace(log, ops, marks) && Kept(log, marks) && Effective(log, ops, marks, hasMigration)
    requires |log| == 3 && ops[0].StageOp? && ops[1].ActivateOp?
    requires FreshId(log[0], ops[0].id) && StageAccepts(log[0], ops[0].source, ops[0].id, ops[0].expectedTarget)
    requires var r := ops[0].source.release;
             log[0].current.Some? && log[0].current.value.dataFormat < r.dataFormat ==> hasMigration
    ensures var source, s := ops[0].source, log[2];
            var release := source.release.(directory := Installed(source.release.revision));
            && s.record.Some? && s.record.value.phase.Committed?
            && s.current == Some(release)
            && release.directory in s.dirs && s.dirs[release.directory] == source.tree
            && s.data == if log[0].current.Some? && log[0].current.value.dataFormat < release.dataFormat
                         then Migrated(log[0].data, release.dataFormat) else log[0].data
  {
    HistoryPromises(log, ops, marks, 2);
    MarksExplained(log, ops, marks, 1);
    MarksExplained(log, ops, marks, 2);
  }

  lemma HistoryBegins(s: DiskState, ops: seq<Op>, hasMigration: bool)
    requires Intact(s)
    ensures var log, marks := [s], [Mark(NewBaseline(s), 0, 0)];
            Trace(log, ops, marks) && Kept(log, marks) && Effective(log, ops, marks, hasMigration)
  {
  }

  /** The next operation of a history. */
  method Extend(disk: Disk, ops: seq<Op>, hasMigration: bool, log: seq<DiskState>, ghost marks: seq<Mark>,
                ghost faultless: bool)
    returns (log': seq<DiskState>, broken: bool, ghost marks': seq<Mark>, ghost faultless': bool)
    requires Trace(log, ops, marks) && Kept(log, marks) && |log| <= |ops| && log[|log|-1] == disk.st
    requires faultless ==> Effective(log, ops, marks, hasMigration)
    modifies disk
    ensures disk.faults >= old(disk.faults) && (faultless' <==> faultless && disk.faults == old(disk.faults))
    ensures Trace(log', ops, marks') && Kept(log', marks')
    ensures log' == if broken then log else log + [disk.st]
    ensures broken ==>
              var k := |log| - 1;
              && marks' == marks && log[k].record.Some?
              && NothingLost(disk.st, log[k].record.value,
                             NewBaseline(log[marks[k].begun]).(data := log[marks[k].before].data))
    ensures faultless' ==> Effective(log', ops, marks', hasMigration)
  {
    var i := |log| - 1;
    ghost var s, m, b := disk.st, marks[i], marks[i].base;
    broken, b := Perform(disk, ops[i], hasMigration, m.base);
    faultless' := faultless && disk.faults == old(disk.faults);
    log', marks' := log, marks;
    if broken {
      BrokenKeeps(log, ops, marks, disk.st);
    } else {
      m := NextMark(s, disk.st, ops[i], i, m, b);
      HistoryGrows(log, ops, marks, disk.st, m, hasMigration, faultless');
      log', marks' := log + [disk.st], marks + [m];
    }
  }

  /**
   Any history, by any number of processes one after another: every operation may fail or die at
   any point, also recovery. The log holds the disk after each operation, and every state in it keeps
   the promise of the operation that staged its transaction. A history ends early only when recovery
   or the undoing of an activation could not go on; even then nothing is lost: the previous release's
   files and the data, or the snapshot, are still there.
   */
  method Run(disk: Disk, ops: seq<Op>, hasMigration: bool)
    returns (log: seq<DiskState>, broken: bool, ghost marks: seq<Mark>)
    requires Intact(disk.st)
    modifies disk
    ensures Trace(log, ops, marks) && Kept(log, marks) && log[0] == old(disk.st)
    ensures AllOutcomes(log, ops, marks)
    ensures !broken ==> |log| == |ops| + 1 && log[|ops|] == disk.st
    ensures disk.faults == old(disk.faults) ==> Effective(log, ops, marks, hasMigration)
    ensures broken ==>
              var k := |log| - 1;
              log[k].record.Some?
              && NothingLost(disk.st, log[k].record.value,
                             NewBaseline(log[marks[k].begun]).(data := log[marks[k].before].data))
  {
    log, broken, marks := [disk.st], false, [Mark(NewBaseline(disk.st), 0, 0)];
    HistoryBegins(disk.st, ops, hasMigration);
    ghost var faultless := true;
    for i := 0 to |ops|
      invariant |log| == i + 1 && log[i] == disk.st && log[0] == old(disk.st) && !broken
      invariant Trace(log, ops, marks) && Kept(log, marks)
      invariant disk.faults >= old(disk.faults) && (disk.faults == old(disk.faults) ==> faultless)
      invariant faultless ==> Effective(log, ops, marks, hasMigration)
    {
      log, broken, marks, faultless := Extend(disk, ops, hasMigration, log, marks, faultless);
      if broken { break; }
    }
    AllEndWell(log, ops, marks);
  }

  // ---------------------------------------------------------------- the limits, made exact

  /** A finished switch from revision "a" to revision "b", with the record in phase `p`. */
  function SwitchedExample(p: Phase): (DiskState, Baseline) {
    var oldTree := Tree(Option.None, map["app" := "1"]);
    var newTree := Tree(Some(Inventory("2", "b", "linux", map["app" := "2"])), map["app" := "2"]);
    var previous := Release("1", "a", 1, 1, "linux", Installed("a"));
    var t := Transaction("id", p, Release("2", "b", 1, 1, "linux", Candidate("b", "id")), Some(previous), NoFailure);
    (DiskState(Some(t), Some(TargetOf(t)), map[Installed("a") := oldTree, Installed("b") := newTree], map[],
               Original("notes")),
     Baseline(Some(previous), Some(oldTree), Original("notes"), Some(newTree), false, false, false))
  }

  predicate NothingMoved(p: Phase) { p in {Staging, Ready, Snapshotting, RolledBack, Phase.Failed} }

  lemma OverwriteKeeps(s: DiskState, b: Baseline)
    requires Inv(s, b) && s.record.Some? && NothingMoved(s.record.value.phase)
    ensures Inv(Overwritten(s), b)
  {
  }

  lemma OverwriteBreaks(p: Phase)
    requires !NothingMoved(p)
    ensures var (s, b) := SwitchedExample(p);
            Inv(s, b) && s.record.Some? && s.record.value.phase == p && !Inv(Overwritten(s), b)
  {
    var (s, b) := SwitchedExample(p);
    assert s.current != s.record.value.previous;
  }

  /**
   Asking for activation when no candidate is ready overwrites the record with `Failed`. That is
   harmless exactly in the phases in which nothing has been moved or everything is moved back.
   */
  lemma ActivationOverwriteIsHarmless(p: Phase)
    ensures (forall s, b :: Inv(s, b) && s.record.Some? && s.record.value.phase == p ==> Inv(Overwritten(s), b))
            <==> NothingMoved(p)
  {
    if NothingMoved(p) {
      forall s, b | Inv(s, b) && s.record.Some? && s.record.value.phase == p ensures Inv(Overwritten(s), b) {
        OverwriteKeeps(s, b);
      }
    } else {
      OverwriteBreaks(p);
    }
  }

  /**
   After a torn discard, before activation: the check that is exactly right. What passes inventory
   verification is the whole candidate, and the whole candidate passes.
   */
  lemma ReadyCandidateIsWholeExactlyWhenVerified(s: DiskState, b: Baseline)
    requires Inv(s, b) && IsReady(s)
    ensures var n := s.record.value.candidate.directory;
            Inv(s, b.(torn := false)) <==> n in s.dirs && Verified(s.dirs[n], s.record.value.candidate)
  {
    var n := s.record.value.candidate.directory;
    if n in s.dirs && Verified(s.dirs[n], s.record.value.candidate) {
      VerifiedPartIsWhole(s.dirs[n], b.staged.value, s.record.value.candidate);
    }
  }

  /** Two different trees that verify as a release: nothing but the files tells them apart. */
  function SampleTree(r: Release, body: string): Tree {
    var files := map["app" := body];
    Tree(Some(Inventory(r.version, r.revision, r.target, files)), files)
  }

  /**
   With the default check, a committed directory is exactly the candidate, whatever discards were
   torn, if and only if the release being installed is not the very one that was current.
   */
  lemma DefaultCheckIsExactUnlessReinstalled(t: Transaction)
    requires WellFormed(t) && t.phase.Committed?
    ensures (forall s, b :: Inv(s, b) && s.record == Some(t) && !b.custom ==>
               TargetDir(t) in s.dirs && Some(s.dirs[TargetDir(t)]) == b.staged)
            <==> t.previous != Some(TargetOf(t))
  {
    if t.previous == Some(TargetOf(t)) {
      var was, wanted := SampleTree(TargetOf(t), "1"), SampleTree(TargetOf(t), "2");
      assert was.files["app"] != wanted.files["app"];
      var s := DiskState(Some(t), Some(TargetOf(t)), map[TargetDir(t) := was], map[], Original(""));
      var b := Baseline(t.previous, Some(was), Original(""), Some(wanted), false, true, false);
      assert Inv(s, b) && s.record == Some(t) && !b.custom;
      assert Some(s.dirs[TargetDir(t)]) != b.staged;
    }
  }

  /** An activation without migration to a release that was not there, operation by operation. */
  predicate Activates(states: seq<DiskState>, t: Transaction, custom: bool) {
    && |states| == 6 && !MigrationRequired(t) && TargetDir(t) !in states[0].dirs
    && Recorded(states[0], states[1], WithPhase(t, Switching), Outcome.Done)
    && Renaming(states[1], states[2], t.candidate.directory, TargetDir(t), Outcome.Done)
    && Pointed(states[2], states[3], Some(TargetOf(t)), Outcome.Done)
    && Recorded(states[3], states[4], WithPhase(t, Verifying), Outcome.Done)
    && CheckMayPass(states[4], TargetDir(t), TargetOf(t), custom)
    && Recorded(states[4], states[5], WithPhase(t, Committed), Outcome.Done)
  }

  /**
   Why exactness needs the files to be looked at: the process that discards a ready candidate dies in
   the middle of the removal; the record still says ready, and an activation with a check that does
   not look at the files commits what is left. Each state follows by an operation of the disk.
   */
  lemma TornCandidateCanCommit() returns (whole: DiskState, b: Baseline, states: seq<DiskState>)
    ensures Inv(whole, b) && IsReady(whole) && !b.torn
    ensures var t := whole.record.value;
            && Activates(states, t, true)
            && Removal(whole, states[0], t.candidate.directory, Crashed)
            && states[5].record == Some(WithPhase(t, Committed))
            && Some(states[5].dirs[TargetDir(t)]) != b.staged && !Verified(states[5].dirs[TargetDir(t)], TargetOf(t))
  {
    var r := Release("1", "a", 1, 1, "linux", Candidate("a", "id"));
    var t := Transaction("id", Ready, r, Option.None, NoFailure);
    var tree := SampleTree(r, "1");
    var part := Tree(tree.inventory, map[]);
    whole := DiskState(Some(t), Option.None, map[r.directory := tree], map[], Original("notes"));
    b := Baseline(Option.None, Option.None, Original("notes"), Some(tree), false, false, false);
    var s0 := whole.(dirs := map[r.directory := part]);
    var s1 := s0.(record := Some(WithPhase(t, Switching)));
    var s2 := s1.(dirs := map[TargetDir(t) := part]);
    var s3 := s2.(current := Some(TargetOf(t)));
    var s4 := s3.(record := Some(WithPhase(t, Verifying)));
    var s5 := s4.(record := Some(WithPhase(t, Committed)));
    assert s2.dirs == (s1.dirs - {r.directory})[TargetDir(t) := s1.dirs[r.directory]];
    assert "app" in tree.files && "app" !in part.files;
    states := [s0, s1, s2, s3, s4, s5];
  }

  /**
   And why the default check is not enough when the current release is installed again: the discard
   removes the whole candidate and dies before its record; the next activation dies after recording
   the switch; recovery finds target, pointer and no candidate, verifies the old directory, commits.
   */
  lemma ReinstallationCanCommitTheOldDirectory() returns (whole: DiskState, b: Baseline, states: seq<DiskState>)
    ensures Inv(whole, b) && IsReady(whole) && !b.torn && |states| == 4
    ensures var t := whole.record.value;
            && Removal(whole, states[0], t.candidate.directory, Crashed) && t.candidate.directory !in states[0].dirs
            && Recorded(states[0], states[1], WithPhase(t, Switching), Crashed)
            && states[1].record == Some(WithPhase(t, Switching)) && LooksSwitched(states[1], WithPhase(t, Switching))
            && Recorded(states[1], states[2], WithPhase(t, Verifying), Outcome.Done)
            && CheckMayPass(states[2], TargetDir(t), TargetOf(t), false)
            && Recorded(states[2], states[3], WithPhase(t, Committed), Outcome.Done)
            && states[3].record == Some(WithPhase(t, Committed)) && Some(states[3].dirs[TargetDir(t)]) != b.staged
  {
    var r := Release("1", "a", 1, 1, "linux", Candidate("a", "id"));
    var t := Transaction("id", Ready, r, Some(r.(directory := Installed("a"))), NoFailure);
    var was, wanted := SampleTree(r, "1"), SampleTree(r, "2");
    assert was.files["app"] != wanted.files["app"];
    whole := DiskState(Some(t), t.previous, map[r.directory := wanted, Installed("a") := was], map[],
                       Original("notes"));
    b := Baseline(t.previous, Some(was), Original("notes"), Some(wanted), false, false, false);
    var s0 := whole.(dirs := map[Installed("a") := was]);
    var s1 := s0.(record := Some(WithPhase(t, Switching)));
    var s2 := s1.(record := Some(WithPhase(t, Verifying)));
    var s3 := s2.(record := Some(WithPhase(t, Committed)));
    states := [s0, s1, s2, s3];
  }
}
