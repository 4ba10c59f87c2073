/**
 That a foreground update gets done: what the launcher and its helper reach when nothing disturbs
 them, what a failure leaves behind, and that no launcher turns against its helper without one.
 */
module UpdateProgress {
  import opened Common
  import opened UpdateLease

  function Steps(s: State, p: Pid, n: nat): State
    decreases n
  {
    if n == 0 then s else Steps(Next(s, Step(p)), p, n - 1)
  }

  lemma {:induction false} StepsAdd(s: State, p: Pid, m: nat, n: nat)
    ensures Steps(s, p, m + n) == Steps(Steps(s, p, m), p, n)
    decreases m
  {
    if m > 0 { StepsAdd(Next(s, Step(p)), p, m - 1, n); }
  }

  /** The first of `n` steps, for which one knows the next state. */
  lemma StepTo(s: State, p: Pid, n: nat, t: State)
    requires n > 0 && Next(s, Step(p)) == t
    ensures Steps(s, p, n) == Steps(t, p, n - 1)
  {
  }

  // ---------------------------------------------------------------- acquiring

  /** Nobody has the lease, or its owner has died. */
  predicate Vacant(s: State) { s.lease.None? || (OwnerOf(s).Some? && !Alive(s, OwnerOf(s).value.pid)) }

  /** How many steps an acquisition takes: one more to remove a dead owner's directory. */
  function AcquisitionSteps(s: State): nat { if s.lease.None? then 2 else if Vacant(s) then 3 else 1 }

  function AcquiredPc(token: Token, surface: Option<Pid>): Pc {
    if surface.Some? then WriteHandoff(token, surface.value) else Operating(token)
  }

  /** Undisturbed, a process acquires the lease exactly when it is vacant; otherwise it changes nothing. */
  lemma UndisturbedAcquisition(s: State, p: Pid, token: Token, surface: Option<Pid>)
    requires Alive(s, p) && s.procs[p].pc == Acquire(token, surface, 0)
    ensures Steps(s, p, AcquisitionSteps(s)) ==
            if Vacant(s)
            then Goto(s.(lease := Some(Lease(p, Some(Owner(p, token, Owned))))), p, AcquiredPc(token, surface))
            else Goto(s, p, Idle)
  {
    var n := AcquisitionSteps(s);
    if !Vacant(s) {
      StepTo(s, p, 1, Goto(s, p, Idle));
    } else {
      var s1 := s;
      if s.lease.Some? {
        s1 := Goto(s.(lease := None), p, Acquire(token, surface, 1));
        StepTo(s, p, 3, s1);
      }
      var s2 := Goto(s.(lease := Some(Lease(p, None))), p, WriteOwner(token, surface));
      assert s1.procs[p := s1.procs[p].(pc := s2.procs[p].pc)] == s2.procs;
      StepTo(s1, p, 2, s2);
      var s3 := Goto(s.(lease := Some(Lease(p, Some(Owner(p, token, Owned))))), p, AcquiredPc(token, surface));
      assert s2.procs[p := s2.procs[p].(pc := s3.procs[p].pc)] == s3.procs;
      StepTo(s2, p, 1, s3);
    }
  }

  /** An updater of its own gives the lease back. */
  lemma UndisturbedUpdate(s: State, p: Pid, token: Token)
    requires Alive(s, p) && s.procs[p].pc == Operating(token) && OwnerOf(s) == Some(Owner(p, token, Owned))
    ensures Steps(s, p, 2) == Goto(s.(lease := None), p, Idle)
  {
    StepTo(s, p, 2, Goto(s, p, Release(token)));
    StepTo(Goto(s, p, Release(token)), p, 1, Goto(s.(lease := None), p, Idle));
  }

  // ---------------------------------------------------------------- an undisturbed hand-over

  /** The launcher has acquired with this token, in a state that was like `s` but for its own doing. */
  predicate Acquired(s: State, t: State, p: Pid, token: Token, pc: Pc)
    requires p in s.procs
  {
    && t.dead == s.dead && t.procs == s.procs[p := s.procs[p].(pc := pc)]
    && t.lease == Some(Lease(p, Some(Owner(p, token, Owned))))
  }

  /** The helper has claimed: it owns the lease, nothing else but the launcher has changed. */
  predicate HandedOver(s: State, t: State, p: Pid, helper: Pid, h: Handoff, pc: Pc)
    requires p in s.procs
  {
    && t.dead == s.dead && t.handoff.None?
    && t.procs == s.procs[p := s.procs[p].(pc := pc)][helper := Proc(Some(p), WaitForParent(h))]
    && t.lease == Some(Lease(p, Some(Owner(helper, h.token, Claimed))))
  }

  /** From a vacant lease to the written handoff. */
  lemma LauncherAcquires(s: State, p: Pid, token: Token, blocking: Pid) returns (t: State)
    requires Alive(s, p) && s.procs[p].pc.Idle? && Vacant(s) && Alive(s, blocking) && token !in s.issued
    ensures t == Steps(Next(s, BeginHandoff(p, token, blocking)), p, AcquisitionSteps(s) + 1)
    ensures Acquired(s, t, p, token, SpawnHelper(token)) && t.handoff == Some(Handoff(token, blocking))
  {
    var s1, n := Next(s, BeginHandoff(p, token, blocking)), AcquisitionSteps(s);
    UndisturbedAcquisition(s1, p, token, Some(blocking));
    StepsAdd(s1, p, n, 1);
    t := Steps(s1, p, n + 1);
    var s2 := Steps(s1, p, n);
    StepTo(s2, p, 1, Next(s2, Step(p)));
    assert s2.procs == s.procs[p := s.procs[p].(pc := WriteHandoff(token, blocking))];
    assert t.procs == s.procs[p := s.procs[p].(pc := SpawnHelper(token))];
  }

  /** From the spawned helper to its claim of handoff and lease. */
  lemma HelperClaims(s: State, s0: State, p: Pid, helper: Pid, h: Handoff) returns (t: State)
    requires p in s0.procs && helper !in s0.procs && helper !in s0.dead && p !in s0.dead
    requires Acquired(s0, s, p, h.token, SpawnHelper(h.token)) && s.handoff == Some(h)
    ensures t == Steps(Steps(Next(s, Spawn(p, helper)), p, 1), helper, 2)
    ensures HandedOver(s0, t, p, helper, h, WaitForClaim(h.token, helper))
  {
    var s1 := Next(s, Spawn(p, helper));
    var s2 := Next(s1, Step(p));
    StepTo(s1, p, 1, s2);
    assert s2.procs == s0.procs[p := s0.procs[p].(pc := WaitForClaim(h.token, helper))]
                               [helper := Proc(Some(p), ClaimHandoff)];
    var s3 := Next(s2, Step(helper));
    t := Next(s3, Step(helper));
    StepTo(s2, helper, 2, s3);
    StepTo(s3, helper, 1, t);
    assert t.procs == s0.procs[p := s0.procs[p].(pc := WaitForClaim(h.token, helper))]
                              [helper := Proc(Some(p), WaitForParent(h))];
  }

  /** The launcher sees the claim and lets go. */
  lemma LauncherLetsGo(s0: State, s: State, p: Pid, helper: Pid, h: Handoff) returns (t: State)
    requires Alive(s0, p) && helper != p && HandedOver(s0, s, p, helper, h, WaitForClaim(h.token, helper))
    ensures t == Steps(s, p, 2) && HandedOver(s0, t, p, helper, h, Idle)
  {
    var s1 := Goto(s, p, Release(h.token));
    t := Goto(s, p, Idle);
    assert s1.procs[p := s1.procs[p].(pc := Idle)] == t.procs;
    StepTo(s, p, 2, s1);
    StepTo(s1, p, 1, t);
    assert t.procs == s0.procs[p := s0.procs[p].(pc := Idle)][helper := Proc(Some(p), WaitForParent(h))];
  }

  /**
   An undisturbed hand-over, for any state with a vacant lease, any processes and any token: the
   launcher ends idle and has let go, and its helper, alive, owns the lease as claimed.
   */
  lemma UndisturbedHandOver(s: State, p: Pid, helper: Pid, token: Token, blocking: Pid) returns (t: State)
    requires Alive(s, p) && s.procs[p].pc.Idle? && Vacant(s)
    requires Alive(s, blocking) && token !in s.issued && helper !in s.procs && helper !in s.dead
    ensures var acquired := Steps(Next(s, BeginHandoff(p, token, blocking)), p, AcquisitionSteps(s) + 1);
            var transferred := Steps(Next(acquired, Spawn(p, helper)), p, 1);
            t == Steps(Steps(transferred, helper, 2), p, 2)
    ensures HandedOver(s, t, p, helper, Handoff(token, blocking), Idle) && Alive(t, helper)
  {
    var acquired := LauncherAcquires(s, p, token, blocking);
    var h := Handoff(token, blocking);
    var claimed := HelperClaims(acquired, s, p, helper, h);
    t := LauncherLetsGo(s, claimed, p, helper, h);
  }

  // ---------------------------------------------------------------- from the claim to the installation

  /** How far a helper with a claimed lease has come. */
  function Progress(pc: Pc): nat {
    match pc
    case WaitForParent(_) => 0
    case WaitForBlocking(_) => 1
    case Installing(_) => 2
    case RemoveHandoff(_, _) => 3
    case ReleaseClaimed(_) => 4
    case _ => 5
  }

  /** A helper that has claimed its lease, with nobody left to wait for. */
  predicate OnItsWay(s: State, p: Pid, h: Handoff) {
    && Alive(s, p) && ParentDead(s, p) && h.blocking in s.dead
    && s.procs[p].pc in {WaitForParent(h), WaitForBlocking(h), Installing(h), RemoveHandoff(h, true),
                         ReleaseClaimed(h), Exited}
  }

  function StepsOf(es: seq<Event>, p: Pid): nat {
    if es == [] then 0 else StepsOf(es[..|es|-1], p) + if es[|es|-1] == Step(p) then 1 else 0
  }

  /** The process neither fails nor dies. */
  predicate Spared(es: seq<Event>, p: Pid) { forall e :: e in es ==> e != Fail(p) && e != Die(p) }

  lemma OwnStepGoesOn(s: State, p: Pid, h: Handoff)
    requires OnItsWay(s, p, h) && s.procs[p].parent != Some(p) && h.blocking != p
    ensures OnItsWay(Next(s, Step(p)), p, h)
    ensures var was := Progress(s.procs[p].pc);
            Progress(Next(s, Step(p)).procs[p].pc) == if was < 5 then was + 1 else was
  {
  }

  /** Nobody but its launcher ends a helper. */
  lemma NobodyElseEndsIt(s: State, p: Pid, q: Pid)
    requires Inv(s) && Alive(s, p) && ParentDead(s, p) && q != p && Alive(s, q)
    ensures Alive(StepOf(s, q), p) && StepOf(s, q).procs[p] == s.procs[p] && s.dead <= StepOf(s, q).dead
  {
    StepFrame(s, q);
    assert ProcInv(s, q);
  }

  lemma OthersLeaveItAlone(s: State, p: Pid, e: Event)
    requires Inv(s) && Alive(s, p) && ParentDead(s, p) && e != Step(p) && e != Fail(p) && e != Die(p)
    requires !s.procs[p].pc.Idle? && !s.procs[p].pc.SpawnHelper? && !s.procs[p].pc.Terminate?
    ensures Alive(Next(s, e), p) && Next(s, e).procs[p] == s.procs[p] && s.dead <= Next(s, e).dead
  {
    if e.Step? && Alive(s, e.p) { NobodyElseEndsIt(s, p, e.p); }
  }

  /** One event: a step of the helper takes it on, anything else leaves it where it is. */
  lemma GoesOnByItsSteps(s: State, p: Pid, h: Handoff, e: Event)
    requires Inv(s) && OnItsWay(s, p, h) && e != Fail(p) && e != Die(p)
    ensures OnItsWay(Next(s, e), p, h)
    ensures var was, now := Progress(s.procs[p].pc), Progress(Next(s, e).procs[p].pc);
            now == if e == Step(p) && was < 5 then was + 1 else was
  {
    if e == Step(p) { OwnStepGoesOn(s, p, h); } else { OthersLeaveItAlone(s, p, e); }
  }

  /**
   Whatever the other processes do in between, a helper that has claimed its lease and has nobody to
   wait for comes as far as its own steps take it: its second step begins the installation, its fifth
   has given the lease back.
   */
  lemma {:induction false} HelperInstalls(es: seq<Event>, later: seq<Event>, p: Pid, h: Handoff)
    requires SafeRun(es + later) && OnItsWay(Exec(INIT, es), p, h) && Spared(later, p)
    ensures OnItsWay(Exec(INIT, es + later), p, h)
    ensures var was, n := Progress(Exec(INIT, es).procs[p].pc), StepsOf(later, p);
            Progress(Exec(INIT, es + later).procs[p].pc) == if was + n < 5 then was + n else 5
    decreases |later|
  {
    if later == [] {
      assert es + later == es;
    } else {
      var k := |later| - 1;
      var run := es + later;
      assert run[..|run|-1] == es + later[..k] && run[|run|-1] == later[k] && later[k] in later;
      assert forall e :: e in later[..k] ==> e in later;
      HelperInstalls(es, later[..k], p, h);
      RunKeepsInv(es + later[..k]);
      GoesOnByItsSteps(Exec(INIT, es + later[..k]), p, h, later[k]);
    }
  }

  /** At the end of it the helper's lease is gone. */
  lemma InstallationReleases(s: State, p: Pid, h: Handoff)
    requires Inv(s) && Alive(s, p) && s.procs[p].pc == ReleaseClaimed(h)
    ensures Next(s, Step(p)).lease.None? && Next(s, Step(p)).procs[p].pc.Exited?
  {
    assert ProcInv(s, p);
  }

  /** Undisturbed: with nobody left to wait for, two steps to the installation. */
  lemma StepsToInstalling(s: State, helper: Pid, h: Handoff)
    requires Alive(s, helper) && s.procs[helper].pc == WaitForParent(h) && !Alive(s, h.blocking)
    requires s.procs[helper].parent.Some? ==> !Alive(s, s.procs[helper].parent.value)
    requires h.blocking != helper && s.procs[helper].parent != Some(helper)
    ensures Steps(s, helper, 2) == Goto(s, helper, Installing(h))
  {
    var s1 := Goto(s, helper, WaitForBlocking(h));
    StepTo(s, helper, 2, s1);
    assert s1.procs[helper := s1.procs[helper].(pc := Installing(h))]
           == s.procs[helper := s.procs[helper].(pc := Installing(h))];
    StepTo(s1, helper, 1, Goto(s, helper, Installing(h)));
  }

  /** ... and three more to the end, with nothing left behind. */
  lemma StepsToExited(s: State, helper: Pid, h: Handoff)
    requires Alive(s, helper) && s.procs[helper].pc == Installing(h)
    requires OwnerOf(s) == Some(Owner(helper, h.token, Claimed))
    ensures Steps(s, helper, 3) == Goto(WithoutHandoff(s, h.token).(lease := None), helper, Exited)
  {
    var s1 := Goto(s, helper, RemoveHandoff(h, true));
    var s2 := Goto(WithoutHandoff(s1, h.token), helper, ReleaseClaimed(h));
    var s3 := Goto(s2.(lease := None), helper, Exited);
    StepTo(s, helper, 3, s1);
    StepTo(s1, helper, 2, s2);
    StepTo(s2, helper, 1, s3);
    assert s3.procs == s.procs[helper := s.procs[helper].(pc := Exited)];
  }

  /** After the hand-over, once the launcher and the surface have exited: installed, and all given back. */
  lemma UndisturbedInstallation(s0: State, s: State, p: Pid, helper: Pid, h: Handoff)
    requires Alive(s0, p) && helper !in s0.procs && helper !in s0.dead && h.blocking in s0.procs
    requires HandedOver(s0, s, p, helper, h, Idle)
    ensures var t := Next(Next(s, Die(p)), Die(h.blocking));
            var installing := Steps(t, helper, 2);
            && installing == Goto(t, helper, Installing(h))
            && OwnerOf(installing) == Some(Owner(helper, h.token, Claimed))
            && Steps(t, helper, 5) == Goto(t.(lease := None), helper, Exited)
  {
    var t := Next(Next(s, Die(p)), Die(h.blocking));
    StepsToInstalling(t, helper, h);
    var installing := Goto(t, helper, Installing(h));
    StepsToExited(installing, helper, h);
    StepsAdd(t, helper, 2, 3);
    assert Goto(installing.(lease := None), helper, Exited).procs == Goto(t.(lease := None), helper, Exited).procs;
  }

  // ---------------------------------------------------------------- failures

  /** The launcher has given up its hand-over: no process of it is left, nor lease nor handoff. */
  predicate GivenUp(t: State, p: Pid, token: Token) {
    && p in t.procs && t.procs[p].pc.Idle? && t.lease.None?
    && (t.handoff.Some? ==> t.handoff.value.token != token)
  }

  lemma HandoffRemoved(s: State, p: Pid, token: Token)
    requires Alive(s, p) && s.procs[p].pc == RemoveOwnHandoff(token)
    requires s.lease.None? || OwnerOf(s) == Some(Owner(p, token, Owned))
    ensures GivenUp(Steps(s, p, 2), p, token) && Steps(s, p, 2).dead == s.dead
  {
    var s1 := Goto(WithoutHandoff(s, token), p, Release(token));
    StepTo(s, p, 2, s1);
    StepTo(s1, p, 1, Goto(s1.(lease := None), p, Idle));
  }

  lemma HelperEnded(s: State, p: Pid, helper: Pid, token: Token) returns (t: State)
    requires Alive(s, p) && s.procs[p].pc == Terminate(token, helper) && helper != p
    requires OwnerOf(s) in {Some(Owner(p, token, Owned)), Some(Owner(helper, token, Transferred)),
                            Some(Owner(helper, token, Claimed))}
    ensures t == Steps(s, p, 2) && Alive(t, p) && t.procs[p].pc == RemoveOwnHandoff(token) && helper in t.dead
    ensures t.lease.None? || OwnerOf(t) == Some(Owner(p, token, Owned))
  {
    var s1 := Goto(s.(dead := s.dead + {helper}), p, CancelTransfer(token, helper));
    t := Goto(if OwnerOf(s).value.pid == p then s1 else s1.(lease := None), p, RemoveOwnHandoff(token));
    StepTo(s, p, 2, s1);
    StepTo(s1, p, 1, t);
  }

  /** A failure before there is a helper: neither lease nor handoff is left. */
  lemma FailureBeforeTheHelper(s: State, p: Pid, token: Token)
    requires Alive(s, p) && OwnerOf(s) == Some(Owner(p, token, Owned))
    requires s.procs[p].pc == SpawnHelper(token) || (s.procs[p].pc.WriteHandoff? && s.procs[p].pc.token == token)
    ensures GivenUp(Steps(Next(s, Fail(p)), p, 2), p, token)
  {
    HandoffRemoved(Next(s, Fail(p)), p, token);
  }

  /**
   A failure with a helper that has the transferred or claimed lease, or is about to get it: the
   helper is ended and the lease it had is cancelled.
   */
  lemma FailureEndsTheHelper(s: State, p: Pid, helper: Pid, token: Token)
    requires Alive(s, p) && s.procs[p].pc in {Transfer(token, helper), WaitForClaim(token, helper)} && helper != p
    requires OwnerOf(s) in {Some(Owner(p, token, Owned)), Some(Owner(helper, token, Transferred)),
                            Some(Owner(helper, token, Claimed))}
    ensures var t := Steps(Next(s, Fail(p)), p, 4); GivenUp(t, p, token) && !Alive(t, helper)
  {
    var s1 := Next(s, Fail(p));
    var t := HelperEnded(s1, p, helper, token);
    StepsAdd(s1, p, 2, 2);
    HandoffRemoved(t, p, token);
  }

  /** A helper whose wait or installation fails gives its lease back too. */
  lemma FailingHelperReleases(s: State, p: Pid, h: Handoff)
    requires Alive(s, p) && OwnerOf(s) == Some(Owner(p, h.token, Claimed))
    requires s.procs[p].pc in {WaitForParent(h), WaitForBlocking(h)}
    ensures var t := Steps(Next(s, Fail(p)), p, 2);
            && p in t.procs && t.procs[p].pc.Exited? && t.lease.None?
            && (t.handoff.Some? ==> t.handoff.value.token != h.token)
  {
    var s1 := Next(s, Fail(p));
    var s2 := Goto(WithoutHandoff(s1, h.token), p, ReleaseClaimed(h));
    StepTo(s1, p, 2, s2);
    StepTo(s2, p, 1, Goto(s2.(lease := None), p, Exited));
  }

  /** A helper that finds the lease under another token leaves it alone and goes. */
  lemma HelperOfAnotherLeaseGoes(s: State, p: Pid, h: Handoff)
    requires Alive(s, p) && s.procs[p].pc == ClaimLease(h) && OwnerOf(s).Some? && OwnerOf(s).value.token != h.token
    ensures Steps(s, p, 2) == Goto(WithoutHandoff(s, h.token), p, Exited)
  {
    var s1 := Goto(s, p, RemoveHandoff(h, false));
    StepTo(s, p, 2, s1);
    StepTo(s1, p, 1, Goto(WithoutHandoff(s1, h.token), p, Exited));
    assert s1.procs[p := s1.procs[p].(pc := Exited)] == s.procs[p := s.procs[p].(pc := Exited)];
  }

  // ---------------------------------------------------------------- no cancellation without a failure

  predicate Faultless(es: seq<Event>) { forall e :: e in es ==> !e.Fail? }

  predicate CancelsAt(s: State, p: Pid) {
    p in s.procs && var pc := s.procs[p].pc; pc.Terminate? || pc.CancelTransfer? || pc.RemoveOwnHandoff?
  }

  /** No launcher is ending its helper or cancelling what it transferred. */
  predicate NobodyCancels(s: State) {
    forall p :: p in s.procs ==> !CancelsAt(s, p)
  }

  /** A launcher that still owns the lease transfers it and does not begin to cancel. */
  lemma LauncherBeginsNoCancellation(s: State, p: Pid)
    requires Alive(s, p) && ProcInv(s, p) && !CancelsAt(s, p)
    ensures !CancelsAt(LauncherStep(s, p), p)
  {
  }

  lemma StepBeginsNoCancellation(s: State, p: Pid)
    requires Alive(s, p) && ProcInv(s, p) && !CancelsAt(s, p)
    ensures !CancelsAt(StepOf(s, p), p)
  {
    if !Acquiring(s.procs[p].pc) && !Helping(s.procs[p].pc) { LauncherBeginsNoCancellation(s, p); }
  }

  lemma NobodyBeginsToCancel(s: State, e: Event)
    requires Inv(s) && NobodyCancels(s) && !e.Fail?
    ensures NobodyCancels(Next(s, e))
  {
    if e.Step? && Alive(s, e.p) {
      StepFrame(s, e.p);
      assert ProcInv(s, e.p);
      StepBeginsNoCancellation(s, e.p);
    }
  }

  /**
   However launchers, helpers and other updaters interleave and die: as long as no operation fails and
   no wait expires, no launcher ends its helper or takes back its lease or its handoff.
   */
  lemma {:induction false} NoCancellationWithoutFailure(es: seq<Event>)
    requires Faultless(es)
    ensures SafeRun(es) && NobodyCancels(Exec(INIT, es))
  {
    if es != [] {
      var before, e := es[..|es|-1], es[|es|-1];
      assert e in es && forall x :: x in before ==> x in es;
      NoCancellationWithoutFailure(before);
      RunKeepsInv(before);
      NobodyBeginsToCancel(Exec(INIT, before), e);
    }
  }
}
