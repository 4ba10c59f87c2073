/**
 The installation lock between processes: `install.lock`, guarded by the `lock-acquisition`
 directory. Each event is one file operation of one acquisition, the death of a process, or the
 start of an acquisition.
 */
module InstallationLock {
  import opened Common

  type Pid = nat

  /** One acquisition, from the first mkdir to the release. Its number serves as its random token. */
  type Agent = nat

  datatype Pc =
    | TryDir(attempt: nat)            // mkdir lock-acquisition
    | WriteDirOwner                   // write its owner.json
    | ReadDirOwner(attempt: nat)      // after EEXIST: read the owner and test that it is alive
    | RemoveDir(attempt: nat)         // the owner is dead: remove its directory
    | OpenLock                        // open install.lock, exclusively
    | ReadLock                        // after EEXIST: read its owner
    | TestLock(owner: Option<Agent>)  // ... and test that it is alive
    | RemoveLock                      // the owner is dead: remove its lock
    | ReopenLock
    | WriteLock                       // write the record into the file just created
    | CheckDir(won: bool)             // leaving: is the directory still ours?
    | UnlinkDirOwner(won: bool)
    | RemoveEmptyDir(won: bool)
    | Holding
    | CheckOwn                        // releasing: is the lock still ours?
    | RemoveOwn
    | Gone(held: bool)

  datatype Proc = Proc(pid: Pid, pc: Pc)

  /** The acquisition directory, known by the acquisition that created it, and the owner recorded in it. */
  datatype Directory = Directory(creator: Agent, owner: Option<Agent>)

  /** A lock file is known by the acquisition that created it; until written it names no owner. */
  datatype LockFile = LockFile(creator: Agent, written: bool)

  datatype State = State(
    dir: Option<Directory>,
    lock: Option<LockFile>,
    agents: map<Agent, Proc>,
    dead: set<Pid>)

  datatype Event = Start(a: Agent, pid: Pid) | Step(a: Agent) | Release(a: Agent) | Die(pid: Pid)

  const INIT := State(None, None, map[], {})

  predicate Alive(s: State, a: Agent) {
    a in s.agents && s.agents[a].pid !in s.dead
  }

  /** What one acquisition sees and changes: the two paths and its own program counter. */
  datatype View = View(dir: Option<Directory>, lock: Option<LockFile>, pc: Pc)

  function ViewOf(s: State, a: Agent): View
    requires a in s.agents
  {
    View(s.dir, s.lock, s.agents[a].pc)
  }

  function With(s: State, a: Agent, v: View): State
    requires a in s.agents
  {
    s.(dir := v.dir, lock := v.lock, agents := s.agents[a := s.agents[a].(pc := v.pc)])
  }

  /** The next file operation of acquisition `a`; `s` says which processes are alive. */
  function Operation(s: State, a: Agent, v: View): View {
    match v.pc
    case TryDir(k) =>
      if v.dir.Some? then v.(pc := ReadDirOwner(k)) else v.(dir := Some(Directory(a, None)), pc := WriteDirOwner)
    case WriteDirOwner =>
      if v.dir.Some? && v.dir.value.owner.None?
      then v.(dir := Some(v.dir.value.(owner := Some(a))), pc := OpenLock)
      else v.(pc := Gone(false))
    case ReadDirOwner(k) =>
      if v.dir.None? || v.dir.value.owner.None? || Alive(s, v.dir.value.owner.value) then v.(pc := Gone(false))
      else v.(pc := RemoveDir(k))
    case RemoveDir(k) =>
      v.(dir := None, pc := if k == 0 then TryDir(1) else Gone(false))
    case OpenLock =>
      if v.lock.Some? then v.(pc := ReadLock) else v.(lock := Some(LockFile(a, false)), pc := WriteLock)
    case ReadLock =>
      v.(pc := TestLock(if v.lock.Some? && v.lock.value.written then Some(v.lock.value.creator) else None))
    case TestLock(owner) =>
      v.(pc := if owner.None? || Alive(s, owner.value) then CheckDir(false) else RemoveLock)
    case RemoveLock =>
      if v.lock.None? then v.(pc := CheckDir(false)) else v.(lock := None, pc := ReopenLock)
    case ReopenLock =>
      if v.lock.Some? then v.(pc := CheckDir(false)) else v.(lock := Some(LockFile(a, false)), pc := WriteLock)
    case WriteLock =>
      // The record goes into the file this acquisition created, wherever its name now is.
      var here := v.lock.Some? && v.lock.value.creator == a;
      v.(lock := if here then Some(LockFile(a, true)) else v.lock, pc := CheckDir(true))
    case CheckDir(won) =>
      v.(pc := if v.dir.Some? && v.dir.value.owner == Some(a) then UnlinkDirOwner(won)
               else if won then Holding else Gone(false))
    case UnlinkDirOwner(won) =>
      v.(dir := if v.dir.Some? then Some(v.dir.value.(owner := None)) else None, pc := RemoveEmptyDir(won))
    case RemoveEmptyDir(won) =>
      v.(dir := None, pc := if won then Holding else Gone(false))
    case Holding => v
    case CheckOwn =>
      v.(pc := if v.lock == Some(LockFile(a, true)) then RemoveOwn else Gone(true))
    case RemoveOwn =>
      v.(lock := None, pc := Gone(true))
    case Gone(_) => v
  }

  function StepOf(s: State, a: Agent): State
    requires a in s.agents
  {
    With(s, a, Operation(s, a, ViewOf(s, a)))
  }

  /** Between creating the acquisition directory and leaving it. */
  predicate Inside(pc: Pc) {
    pc in {WriteDirOwner, OpenLock, ReadLock, RemoveLock, ReopenLock, WriteLock}
    || pc.TestLock? || pc.CheckDir? || pc.UnlinkDirOwner? || pc.RemoveEmptyDir?
  }

  /** From the written lock to its removal. */
  predicate Owns(pc: Pc) {
    (pc.CheckDir? && pc.won) || (pc.UnlinkDirOwner? && pc.won) || (pc.RemoveEmptyDir? && pc.won)
    || pc.Holding? || pc.CheckOwn? || pc.RemoveOwn?
  }

  /** Events that cannot happen leave the state as it is. */
  function Next(s: State, e: Event): State {
    match e
    case Start(a, pid) =>
      if a in s.agents || pid in s.dead then s else s.(agents := s.agents[a := Proc(pid, TryDir(0))])
    case Step(a) => if Alive(s, a) then StepOf(s, a) else s
    case Release(a) => if Alive(s, a) && s.agents[a].pc.Holding? then With(s, a, ViewOf(s, a).(pc := CheckOwn)) else s
    case Die(pid) => s.(dead := s.dead + {pid})
  }

  function Exec(s: State, es: seq<Event>): State {
    if es == [] then s else Next(Exec(s, es[..|es|-1]), es[|es|-1])
  }

  /** No process dies while one of its acquisitions is inside the acquisition directory. */
  predicate Careful(s: State, e: Event) {
    e.Die? ==> forall a :: a in s.agents && s.agents[a].pid == e.pid ==> !Inside(s.agents[a].pc)
  }

  predicate CarefulRun(s: State, es: seq<Event>) {
    es == [] || (CarefulRun(s, es[..|es|-1]) && Careful(Exec(s, es[..|es|-1]), es[|es|-1]))
  }

  predicate AgentDirInv(s: State, a: Agent)
    requires a in s.agents
  {
    var pc := s.agents[a].pc;
    && !pc.RemoveDir?
    && (Inside(pc) ==>
          && Alive(s, a)
          && s.dir == Some(Directory(a, if pc.WriteDirOwner? || pc.RemoveEmptyDir? then None else Some(a))))
  }

  /** The acquisition directory is there exactly while one live acquisition, its creator, is inside. */
  predicate DirInv(s: State) {
    && (s.dir.Some? ==> s.dir.value.creator in s.agents && Inside(s.agents[s.dir.value.creator].pc))
    && (forall a :: a in s.agents ==> AgentDirInv(s, a))
  }

  predicate AgentLockInv(s: State, a: Agent)
    requires a in s.agents
  {
    match s.agents[a].pc
    case WriteLock => s.lock == Some(LockFile(a, false))
    case TestLock(Some(owner)) => owner in s.agents && s.lock in {None, Some(LockFile(owner, true))}
    case RemoveLock => s.lock.None? || !Alive(s, s.lock.value.creator)
    case ReopenLock => s.lock.None?
    case pc => Owns(pc) && Alive(s, a) ==> s.lock == Some(LockFile(a, true))
  }

  /** A live owner's lock is the one on disk; whoever removes a lock knows whose it is. */
  predicate LockInv(s: State) {
    && (s.lock.Some? ==>
          && s.lock.value.creator in s.agents
          && var pc := s.agents[s.lock.value.creator].pc;
             if s.lock.value.written then Owns(pc) else pc.WriteLock?)
    && (forall a :: a in s.agents ==> AgentLockInv(s, a))
  }

  predicate Inv(s: State) { DirInv(s) && LockInv(s) }

  lemma DeathKeepsInv(s: State, pid: Pid)
    requires Inv(s) && Careful(s, Die(pid))
    ensures Inv(Next(s, Die(pid)))
  {
  }

  lemma OtherEventsKeepInv(s: State, e: Event)
    requires Inv(s) && Careful(s, e) && !e.Step?
    ensures Inv(Next(s, e))
  {
    if e.Die? { DeathKeepsInv(s, e.pid); }
  }

  lemma StepKeepsDirInv(s: State, a: Agent)
    requires Inv(s) && Alive(s, a)
    ensures DirInv(StepOf(s, a))
  {
  }

  lemma OutsideKeepsLockInv(s: State, a: Agent)
    requires Inv(s) && Alive(s, a) && !Inside(s.agents[a].pc)
    ensures LockInv(StepOf(s, a))
  {
  }

  lemma InsideKeepsLockInv(s: State, a: Agent)
    requires Inv(s) && Alive(s, a) && Inside(s.agents[a].pc)
    ensures LockInv(StepOf(s, a))
  {
  }

  lemma NextKeepsInv(s: State, e: Event)
    requires Inv(s) && Careful(s, e)
    ensures Inv(Next(s, e))
  {
    if !e.Step? {
      OtherEventsKeepInv(s, e);
    } else if Alive(s, e.a) {
      StepKeepsDirInv(s, e.a);
      if Inside(s.agents[e.a].pc) { InsideKeepsLockInv(s, e.a); } else { OutsideKeepsLockInv(s, e.a); }
    }
  }

  lemma {:induction false} RunKeepsInv(es: seq<Event>)
    requires CarefulRun(INIT, es)
    ensures Inv(Exec(INIT, es))
  {
    if es != [] {
      RunKeepsInv(es[..|es|-1]);
      NextKeepsInv(Exec(INIT, es[..|es|-1]), es[|es|-1]);
    }
  }

  /** In every reachable state at most one live acquisition holds the lock. */
  lemma MutualExclusion(es: seq<Event>, a: Agent, b: Agent)
    requires CarefulRun(INIT, es)
    requires var s := Exec(INIT, es);
             && Alive(s, a) && s.agents[a].pc.Holding?
             && Alive(s, b) && s.agents[b].pc.Holding?
    ensures a == b
  {
    RunKeepsInv(es);
  }

  /**
   In every reachable state the lock on disk only disappears by the hand of its owner, or after the
   owner's process has died; in particular a release never removes another process's lock.
   */
  lemma OnlyOwnLockReleased(es: seq<Event>, e: Event)
    requires CarefulRun(INIT, es)
    ensures var s, s' := Exec(INIT, es), Next(Exec(INIT, es), e);
            s.lock.Some? && s'.lock != s.lock && s'.lock != Some(LockFile(s.lock.value.creator, true)) ==>
              e.Step? && (e.a == s.lock.value.creator || !Alive(s, s.lock.value.creator))
  {
    RunKeepsInv(es);
  }

  // ---------------------------------------------------------------- an undisturbed acquisition

  function Steps(s: State, a: Agent, n: nat): State {
    if n == 0 then s else Next(Steps(s, a, n - 1), Step(a))
  }

  function Operations(s: State, a: Agent, v: View, n: nat): View {
    if n == 0 then v else Operation(s, a, Operations(s, a, v, n - 1))
  }

  lemma {:induction false} StepsAreOperations(s: State, a: Agent, n: nat)
    requires Alive(s, a)
    ensures Steps(s, a, n) == With(s, a, Operations(s, a, ViewOf(s, a), n))
  {
    if n == 0 {
      assert s.agents == s.agents[a := s.agents[a]];
    } else {
      StepsAreOperations(s, a, n - 1);
      var t := Steps(s, a, n - 1);
      assert forall c :: Alive(t, c) <==> Alive(s, c);
      assert Operation(t, a, ViewOf(t, a)) == Operation(s, a, ViewOf(t, a));
      assert t.agents[a := t.agents[a].(pc := Steps(s, a, n).agents[a].pc)] == Steps(s, a, n).agents;
    }
  }

  predicate Free(s: State) {
    s.lock.None? || (s.lock.value.written && !Alive(s, s.lock.value.creator))
  }

  lemma {:induction false} Rests(s: State, a: Agent, v: View, n: nat)
    requires n <= 11
    requires var pc := Operations(s, a, v, n).pc; pc.Holding? || pc.Gone?
    ensures Operations(s, a, v, 11) == Operations(s, a, v, n)
    decreases 11 - n
  {
    if n < 11 {
      assert Operations(s, a, v, n + 1) == Operations(s, a, v, n);
      Rests(s, a, v, n + 1);
    }
  }

  lemma {:induction false} Leaving(s: State, a: Agent, v: View, n: nat, won: bool)
    requires n <= 8
    requires var u := Operations(s, a, v, n); u.pc == CheckDir(won) && u.dir == Some(Directory(a, Some(a)))
    ensures Operations(s, a, v, 11) == View(None, Operations(s, a, v, n).lock, if won then Holding else Gone(false))
  {
    var u := Operations(s, a, v, n);
    assert Operations(s, a, v, n + 1) == u.(pc := UnlinkDirOwner(won));
    assert Operations(s, a, v, n + 2) == u.(dir := Some(Directory(a, None)), pc := RemoveEmptyDir(won));
    Rests(s, a, v, n + 3);
  }

  /** The acquisition enters the directory, and opens or reads the lock. */
  lemma Entering(s: State, a: Agent, v: View)
    requires v.dir.None? && v.pc == TryDir(0)
    ensures Operations(s, a, v, 3) ==
            if v.lock.None? then View(Some(Directory(a, Some(a))), Some(LockFile(a, false)), WriteLock)
            else View(Some(Directory(a, Some(a))), v.lock, ReadLock)
  {
    assert Operations(s, a, v, 1) == View(Some(Directory(a, None)), v.lock, WriteDirOwner);
    assert Operations(s, a, v, 2) == View(Some(Directory(a, Some(a))), v.lock, OpenLock);
  }

  /** A lock whose owner has died is removed and taken. */
  lemma Reclaiming(s: State, a: Agent, v: View, b: Agent)
    requires Operations(s, a, v, 3) == View(Some(Directory(a, Some(a))), Some(LockFile(b, true)), ReadLock)
    requires !Alive(s, b)
    ensures Operations(s, a, v, 7) == View(Some(Directory(a, Some(a))), Some(LockFile(a, false)), WriteLock)
  {
    var u := Operations(s, a, v, 3);
    assert Operations(s, a, v, 4) == u.(pc := TestLock(Some(b)));
    assert Operations(s, a, v, 5) == u.(pc := RemoveLock);
    assert Operations(s, a, v, 6) == View(u.dir, None, ReopenLock);
  }

  /**
   With nobody inside the acquisition directory, an undisturbed acquisition ends holding the lock
   exactly when the lock is absent or its owner has died; otherwise it gives up and changes nothing.
   */
  lemma UndisturbedAcquisition(s: State, a: Agent)
    requires s.dir.None? && Alive(s, a) && s.agents[a].pc == TryDir(0)
    ensures Steps(s, a, 11) == With(s, a, if Free(s) then View(None, Some(LockFile(a, true)), Holding)
                                          else View(None, s.lock, Gone(false)))
  {
    StepsAreOperations(s, a, 11);
    var v := ViewOf(s, a);
    Entering(s, a, v);
    var mine := Some(Directory(a, Some(a)));
    if s.lock.None? {
      assert Operations(s, a, v, 4) == View(mine, Some(LockFile(a, true)), CheckDir(true));
      Leaving(s, a, v, 4, true);
    } else if Free(s) {
      Reclaiming(s, a, v, s.lock.value.creator);
      assert Operations(s, a, v, 8) == View(mine, Some(LockFile(a, true)), CheckDir(true));
      Leaving(s, a, v, 8, true);
    } else {
      assert Operations(s, a, v, 5) == View(mine, s.lock, CheckDir(false)) by {
        assert Operations(s, a, v, 4).pc.TestLock?;
      }
      Leaving(s, a, v, 5, false);
    }
  }

  /** A dead process's acquisition directory is removed, and the acquisition goes on as if there were none. */
  lemma DeadDirectoryIsRemoved(s: State, a: Agent)
    requires Alive(s, a) && s.agents[a].pc == TryDir(0)
    requires s.dir.Some? && s.dir.value.owner.Some? && !Alive(s, s.dir.value.owner.value)
    ensures Steps(s, a, 4) == With(s, a, View(Some(Directory(a, None)), s.lock, WriteDirOwner))
  {
    StepsAreOperations(s, a, 4);
    var v := ViewOf(s, a);
    assert Operations(s, a, v, 1) == v.(pc := ReadDirOwner(0));
    assert Operations(s, a, v, 2) == v.(pc := RemoveDir(0));
    assert Operations(s, a, v, 3) == View(None, s.lock, TryDir(1));
  }

  /** An acquisition that finds another one inside the directory gives up and changes nothing. */
  lemma BusyDirectoryIsLeftAlone(s: State, a: Agent)
    requires Inv(s) && s.dir.Some? && Alive(s, a) && s.agents[a].pc == TryDir(0)
    ensures Steps(s, a, 2) == With(s, a, View(s.dir, s.lock, Gone(false)))
  {
    StepsAreOperations(s, a, 2);
    assert AgentDirInv(s, s.dir.value.creator);
    assert Operations(s, a, ViewOf(s, a), 1) == ViewOf(s, a).(pc := ReadDirOwner(0));
  }

  /** An undisturbed release gives the lock back, so that the next acquisition finds it free. */
  lemma UndisturbedRelease(s: State, a: Agent)
    requires Inv(s) && Alive(s, a) && s.agents[a].pc.Holding?
    ensures Steps(Next(s, Release(a)), a, 2) == With(s, a, View(s.dir, None, Gone(true)))
  {
    assert AgentLockInv(s, a);
    var t := Next(s, Release(a));
    StepsAreOperations(t, a, 2);
    assert Operations(t, a, ViewOf(t, a), 1) == ViewOf(t, a).(pc := RemoveOwn);
    assert forall b :: Alive(t, b) <==> Alive(s, b);
    assert t.agents[a := t.agents[a].(pc := Gone(true))] == s.agents[a := s.agents[a].(pc := Gone(true))];
  }
}
