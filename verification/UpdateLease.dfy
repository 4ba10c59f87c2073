/**
 The update lease and the hand-over of a foreground update: a launcher acquires the lease, writes a
 handoff, starts a helper and transfers the lease to it; the helper claims both, waits until the
 launcher and the blocking surface have exited, installs and releases. Other updaters compete for
 the lease at any time, and any process may die at any moment.
 */
module UpdateLease {
  import opened Common

  type Pid = nat
  type Token = nat

  datatype Phase = Owned | Transferred | Claimed

  datatype Owner = Owner(pid: Pid, token: Token, phase: Phase)

  /** The update-operation directory, known by its creator, and its owner.json. */
  datatype Lease = Lease(creator: Pid, owner: Option<Owner>)

  datatype Handoff = Handoff(token: Token, blocking: Pid)

  /** Where a process is in its program; the arguments are the variables it holds. */
  datatype Pc =
    | Idle
    // acquiring, for an own update or (with a blocking surface) for a handoff
    | Acquire(token: Token, surface: Option<Pid>, attempt: nat)
    | WriteOwner(token: Token, surface: Option<Pid>)
    // an updater of its own
    | Operating(token: Token)
    // the launcher
    | WriteHandoff(token: Token, blocking: Pid)
    | SpawnHelper(token: Token)
    | Transfer(token: Token, helper: Pid)
    | WaitForClaim(token: Token, helper: Pid)
    | Terminate(token: Token, helper: Pid)
    | CancelTransfer(token: Token, helper: Pid)
    | RemoveOwnHandoff(token: Token)
    | Release(token: Token)
    // the helper
    | ClaimHandoff
    | ClaimLease(handoff: Handoff)
    | WaitForParent(handoff: Handoff)
    | WaitForBlocking(handoff: Handoff)
    | Installing(handoff: Handoff)
    | RemoveHandoff(handoff: Handoff, holding: bool)
    | ReleaseClaimed(handoff: Handoff)
    | Exited

  /** `parent` is the launcher that started a helper. */
  datatype Proc = Proc(parent: Option<Pid>, pc: Pc)

  /** For each token: the process that acquired with it, and the surface it was to wait for. */
  datatype Issue = Issue(creator: Pid, blocking: Option<Pid>)

  datatype State = State(
    lease: Option<Lease>,
    handoff: Option<Handoff>,
    procs: map<Pid, Proc>,
    dead: set<Pid>,
    issued: map<Token, Issue>)

  datatype Event =
    | Boot(pid: Pid)
    | BeginUpdate(p: Pid, token: Token)
    | BeginHandoff(p: Pid, token: Token, blocking: Pid)
    | Step(p: Pid)
    | Spawn(p: Pid, helper: Pid)
    | Fail(p: Pid)             // the operation fails, or the wait times out
    | TerminateFails(p: Pid)   // the helper survives: terminating it throws, or the kill is not delivered
    | Die(pid: Pid)

  const INIT := State(None, None, map[], {}, map[])

  predicate Alive(s: State, p: Pid) { p in s.procs && p !in s.dead }

  function Goto(s: State, p: Pid, pc: Pc): State
    requires p in s.procs
  {
    s.(procs := s.procs[p := s.procs[p].(pc := pc)])
  }

  function OwnerOf(s: State): Option<Owner> {
    if s.lease.Some? then s.lease.value.owner else None
  }

  /** Forget the handoff with this token; removal compares the recorded id. */
  function WithoutHandoff(s: State, token: Token): State {
    if s.handoff.Some? && s.handoff.value.token == token then s.(handoff := None) else s
  }

  predicate Acquiring(pc: Pc) { pc.Acquire? || pc.WriteOwner? }

  predicate Helping(pc: Pc) {
    pc.ClaimHandoff? || pc.ClaimLease? || pc.WaitForParent? || pc.WaitForBlocking? || pc.Installing?
    || pc.RemoveHandoff? || pc.ReleaseClaimed?
  }

  /** mkdir, then the owner record; a dead owner's directory is removed and tried once more. */
  function AcquireStep(s: State, p: Pid): State
    requires p in s.procs && Acquiring(s.procs[p].pc)
  {
    var owner := OwnerOf(s);
    match s.procs[p].pc
    case Acquire(token, surface, attempt) =>
      if s.lease.None? then Goto(s.(lease := Some(Lease(p, None))), p, WriteOwner(token, surface))
      else if owner.None? || Alive(s, owner.value.pid) then Goto(s, p, Idle)
      else Goto(s.(lease := None), p, if attempt == 0 then Acquire(token, surface, 1) else Idle)
    case WriteOwner(token, surface) =>
      if s.lease.Some? && owner.None? then
        Goto(s.(lease := Some(s.lease.value.(owner := Some(Owner(p, token, Owned))))), p,
             if surface.Some? then WriteHandoff(token, surface.value) else Operating(token))
      else Goto(s, p, Idle)
  }

  /** A process that works under a lease it acquired itself. */
  function LauncherStep(s: State, p: Pid): State
    requires p in s.procs
  {
    var owner := OwnerOf(s);
    match s.procs[p].pc
    case Operating(token) => Goto(s, p, Release(token))
    case WriteHandoff(token, blocking) =>
      Goto(s.(handoff := Some(Handoff(token, blocking))), p, SpawnHelper(token))
    case Transfer(token, helper) =>
      if owner == Some(Owner(p, token, Owned)) then
        Goto(s.(lease := Some(s.lease.value.(owner := Some(Owner(helper, token, Transferred))))), p,
             WaitForClaim(token, helper))
      else Goto(s, p, Terminate(token, helper))
    case WaitForClaim(token, helper) =>
      if owner == Some(Owner(helper, token, Claimed)) then Goto(s, p, Release(token)) else s
    case Terminate(token, helper) =>
      Goto(s.(dead := s.dead + {helper}), p, CancelTransfer(token, helper))
    case CancelTransfer(token, helper) =>
      var cancel := owner in {Some(Owner(helper, token, Transferred)), Some(Owner(helper, token, Claimed))};
      Goto(if cancel then s.(lease := None) else s, p, RemoveOwnHandoff(token))
    case RemoveOwnHandoff(token) => Goto(WithoutHandoff(s, token), p, Release(token))
    case Release(token) =>
      var mine := owner.Some? && owner.value.token == token && owner.value.pid == p;
      Goto(if mine then s.(lease := None) else s, p, Idle)
    case _ => s
  }

  /** The worker of a helper process. */
  function HelperStep(s: State, p: Pid): State
    requires p in s.procs && Helping(s.procs[p].pc)
  {
    var owner := OwnerOf(s);
    match s.procs[p].pc
    case ClaimHandoff =>
      if s.handoff.Some? then Goto(s.(handoff := None), p, ClaimLease(s.handoff.value)) else Goto(s, p, Exited)
    case ClaimLease(h) =>
      if owner == Some(Owner(p, h.token, Transferred)) then
        Goto(s.(lease := Some(s.lease.value.(owner := Some(Owner(p, h.token, Claimed))))), p, WaitForParent(h))
      else if owner.Some? && owner.value.token != h.token then Goto(s, p, RemoveHandoff(h, false))
      else s
    case WaitForParent(h) =>
      if s.procs[p].parent.Some? && Alive(s, s.procs[p].parent.value) then s else Goto(s, p, WaitForBlocking(h))
    case WaitForBlocking(h) => if Alive(s, h.blocking) then s else Goto(s, p, Installing(h))
    case Installing(h) => Goto(s, p, RemoveHandoff(h, true))
    case RemoveHandoff(h, holding) =>
      Goto(WithoutHandoff(s, h.token), p, if holding then ReleaseClaimed(h) else Exited)
    case ReleaseClaimed(h) =>
      var mine := owner.Some? && owner.value.token == h.token && owner.value.pid == p;
      Goto(if mine then s.(lease := None) else s, p, Exited)
  }

  function StepOf(s: State, p: Pid): State
    requires p in s.procs
  {
    var pc := s.procs[p].pc;
    if Acquiring(pc) then AcquireStep(s, p) else if Helping(pc) then HelperStep(s, p) else LauncherStep(s, p)
  }

  /** Where a failing operation or an expired wait leads. */
  function FailedAt(pc: Pc): Pc {
    match pc
    case Acquire(_, _, _) => Idle
    case WriteOwner(_, _) => Idle
    case WriteHandoff(token, _) => RemoveOwnHandoff(token)
    case SpawnHelper(token) => RemoveOwnHandoff(token)
    case Transfer(token, helper) => Terminate(token, helper)
    case WaitForClaim(token, helper) => Terminate(token, helper)
    case CancelTransfer(token, _) => RemoveOwnHandoff(token)
    case RemoveOwnHandoff(token) => Release(token)
    case Release(_) => Idle
    case ClaimHandoff => Exited
    case ClaimLease(h) => RemoveHandoff(h, false)
    case WaitForParent(h) => RemoveHandoff(h, true)
    case WaitForBlocking(h) => RemoveHandoff(h, true)
    case RemoveHandoff(h, holding) => if holding then ReleaseClaimed(h) else Exited
    case ReleaseClaimed(_) => Exited
    case _ => pc
  }

  /** Events that cannot happen leave the state as it is. */
  function Next(s: State, e: Event): State {
    match e
    case Boot(pid) =>
      if pid in s.procs || pid in s.dead then s else s.(procs := s.procs[pid := Proc(None, Idle)])
    case BeginUpdate(p, token) =>
      if Alive(s, p) && s.procs[p].pc.Idle? && token !in s.issued
      then Goto(s.(issued := s.issued[token := Issue(p, None)]), p, Acquire(token, None, 0)) else s
    case BeginHandoff(p, token, blocking) =>
      if Alive(s, p) && s.procs[p].pc.Idle? && token !in s.issued && Alive(s, blocking)
      then Goto(s.(issued := s.issued[token := Issue(p, Some(blocking))]), p, Acquire(token, Some(blocking), 0)) else s
    case Step(p) => if Alive(s, p) then StepOf(s, p) else s
    case Spawn(p, helper) =>
      if Alive(s, p) && s.procs[p].pc.SpawnHelper? && helper !in s.procs && helper !in s.dead then
        var t := Goto(s, p, Transfer(s.procs[p].pc.token, helper));
        t.(procs := t.procs[helper := Proc(Some(p), ClaimHandoff)])
      else s
    case Fail(p) => if Alive(s, p) then Goto(s, p, FailedAt(s.procs[p].pc)) else s
    case TerminateFails(p) =>
      if Alive(s, p) && s.procs[p].pc.Terminate?
      then Goto(s, p, CancelTransfer(s.procs[p].pc.token, s.procs[p].pc.helper)) else s
    case Die(pid) => s.(dead := s.dead + {pid})
  }

  function Exec(s: State, es: seq<Event>): State {
    if es == [] then s else Next(Exec(s, es[..|es|-1]), es[|es|-1])
  }

  /** A live process that acts under the lease. */
  predicate Holds(s: State, p: Pid) {
    && Alive(s, p)
    && match s.procs[p].pc
       case Operating(_) | WriteHandoff(_, _) | SpawnHelper(_) | Transfer(_, _) => true
       case WaitForParent(_) | WaitForBlocking(_) | Installing(_) | ReleaseClaimed(_) => true
       case RemoveHandoff(_, holding) => holding
       case _ => false
  }

  /**
   The launcher's cancellation removes the lease from under its helper: the helper has survived its
   termination, has claimed the lease and is still at work.
   */
  predicate Undercuts(s: State, e: Event) {
    && e.Step? && Alive(s, e.p) && s.procs[e.p].pc.CancelTransfer?
    && OwnerOf(s) == Some(Owner(s.procs[e.p].pc.helper, s.procs[e.p].pc.token, Claimed))
    && Holds(s, s.procs[e.p].pc.helper)
  }

  /** No cancellation of the run undercuts a helper. */
  predicate SafeRun(es: seq<Event>) {
    es == [] || (SafeRun(es[..|es|-1]) && !Undercuts(Exec(INIT, es[..|es|-1]), es[|es|-1]))
  }

  /** Terminating a child process ends it. */
  predicate Terminates(es: seq<Event>) { forall e :: e in es ==> !e.TerminateFails? }

  // ---------------------------------------------------------------- invariant

  predicate IssuedTo(s: State, token: Token, p: Pid) {
    token in s.issued && s.issued[token].creator == p
  }

  predicate GoodHandoff(s: State, h: Handoff) {
    h.token in s.issued && s.issued[h.token].blocking == Some(h.blocking)
  }

  predicate ChildOf(s: State, helper: Pid, p: Pid) {
    helper in s.procs && s.procs[helper].parent == Some(p)
  }

  /** Acquired the lease with this token and, while alive, still owns it. */
  predicate Owns(s: State, p: Pid, token: Token) {
    IssuedTo(s, token, p) && (Alive(s, p) ==> OwnerOf(s) == Some(Owner(p, token, Owned)))
  }

  /** A helper that claimed the lease its parent transferred and, while alive, still holds it. */
  predicate HasClaimed(s: State, p: Pid, h: Handoff) {
    && GoodHandoff(s, h) && ChildOf(s, p, s.issued[h.token].creator)
    && (Alive(s, p) ==> OwnerOf(s) == Some(Owner(p, h.token, Claimed)))
  }

  predicate ParentDead(s: State, p: Pid) {
    p in s.procs && s.procs[p].parent.Some? && s.procs[p].parent.value in s.dead
  }

  predicate ProcInv(s: State, p: Pid)
    requires p in s.procs
  {
    && (s.procs[p].parent.Some? ==> s.procs[p].parent.value in s.procs)
    && match s.procs[p].pc
       case Acquire(t, surface, _) => IssuedTo(s, t, p) && s.issued[t].blocking == surface
       case WriteOwner(t, surface) =>
         && IssuedTo(s, t, p) && s.issued[t].blocking == surface
         && (Alive(s, p) ==> s.lease == Some(Lease(p, None)))
       case Operating(t) => Owns(s, p, t)
       case WriteHandoff(t, blocking) => Owns(s, p, t) && s.issued[t].blocking == Some(blocking)
       case SpawnHelper(t) => Owns(s, p, t)
       case Transfer(t, h) => Owns(s, p, t) && ChildOf(s, h, p)
       case WaitForClaim(t, h) => IssuedTo(s, t, p) && ChildOf(s, h, p)
       case Terminate(t, h) => IssuedTo(s, t, p) && ChildOf(s, h, p)
       case CancelTransfer(t, h) => IssuedTo(s, t, p) && ChildOf(s, h, p)
       case RemoveOwnHandoff(t) => IssuedTo(s, t, p)
       case Release(t) => IssuedTo(s, t, p)
       case ClaimLease(h) => GoodHandoff(s, h)
       case WaitForParent(h) => HasClaimed(s, p, h)
       case WaitForBlocking(h) => HasClaimed(s, p, h) && ParentDead(s, p)
       case Installing(h) => HasClaimed(s, p, h) && ParentDead(s, p) && h.blocking in s.dead
       case RemoveHandoff(h, holding) => GoodHandoff(s, h) && (holding ==> HasClaimed(s, p, h))
       case ReleaseClaimed(h) => HasClaimed(s, p, h)
       case _ => true
  }

  predicate Globals(s: State) {
    && (forall t :: t in s.issued ==>
          s.issued[t].creator in s.procs && (s.issued[t].blocking.Some? ==> s.issued[t].blocking.value in s.procs))
    && (s.handoff.Some? ==> GoodHandoff(s, s.handoff.value))
    && (OwnerOf(s).Some? ==>
          var o := OwnerOf(s).value;
          && o.token in s.issued && o.pid in s.procs
          && (if o.phase.Owned? then o.pid == s.issued[o.token].creator
              else ChildOf(s, o.pid, s.issued[o.token].creator)))
  }

  predicate Inv(s: State) {
    Globals(s) && forall p :: p in s.procs ==> ProcInv(s, p)
  }

  /** The lease names `q`: as its owner or, still without an owner, as its creator. */
  predicate About(s: State, q: Pid) {
    s.lease.Some? && if OwnerOf(s).Some? then OwnerOf(s).value.pid == q else s.lease.value.creator == q
  }

  /** What is known of `q` rests on the lease. */
  predicate Relies(s: State, q: Pid) { About(s, q) && q in s.procs && (Holds(s, q) || s.procs[q].pc.WriteOwner?) }

  /** What is known of `q` survives any change that leaves `q` and a lease it relies on alone. */
  lemma ProcFrame(s: State, s': State, q: Pid)
    requires q in s.procs && ProcInv(s, q) && q in s'.procs && s'.procs[q] == s.procs[q]
    requires forall t :: t in s.issued ==> t in s'.issued && s'.issued[t] == s.issued[t]
    requires forall r :: r in s.procs ==> r in s'.procs && s'.procs[r].parent == s.procs[r].parent
    requires s.dead <= s'.dead
    requires Alive(s', q) && Relies(s, q) ==> s'.lease == s.lease
    ensures ProcInv(s', q)
  {
  }

  /** A live process's lease is not touched by the steps of others, but for a cancellation by its launcher. */
  lemma OthersLeaseStays(s: State, p: Pid, q: Pid)
    requires Globals(s) && Alive(s, p) && ProcInv(s, p) && p != q
    requires s.procs[p].pc.CancelTransfer? ==> s.procs[p].pc.helper != q
    requires About(s, q) && q in s.procs && q !in StepOf(s, p).dead
    ensures StepOf(s, p).lease == s.lease
  {
  }

  lemma AcquireKeeps(s: State, p: Pid)
    requires Globals(s) && Alive(s, p) && ProcInv(s, p) && Acquiring(s.procs[p].pc)
    ensures Globals(AcquireStep(s, p)) && ProcInv(AcquireStep(s, p), p)
  {
  }

  lemma TransferKeepsGlobals(s: State, p: Pid)
    requires Globals(s) && Alive(s, p) && ProcInv(s, p) && s.procs[p].pc.Transfer?
    ensures Globals(LauncherStep(s, p))
  {
  }

  /** The launcher's steps that give the lease up or clean up after a failure. */
  predicate Closing(pc: Pc) { pc.CancelTransfer? || pc.RemoveOwnHandoff? || pc.Release? }

  lemma ClosingKeepsGlobals(s: State, p: Pid)
    requires Globals(s) && Alive(s, p) && ProcInv(s, p) && Closing(s.procs[p].pc)
    ensures Globals(LauncherStep(s, p))
  {
  }

  lemma LauncherKeepsGlobals(s: State, p: Pid)
    requires Globals(s) && Alive(s, p) && ProcInv(s, p) && !s.procs[p].pc.Transfer? && !Closing(s.procs[p].pc)
    ensures Globals(LauncherStep(s, p))
  {
  }

  lemma LauncherKeepsOwn(s: State, p: Pid)
    requires Globals(s) && Alive(s, p) && ProcInv(s, p)
    ensures ProcInv(LauncherStep(s, p), p)
  {
  }

  lemma HelperKeepsGlobals(s: State, p: Pid)
    requires Globals(s) && Alive(s, p) && ProcInv(s, p) && Helping(s.procs[p].pc)
    ensures Globals(HelperStep(s, p))
  {
  }

  lemma HelperKeepsOwn(s: State, p: Pid)
    requires Globals(s) && Alive(s, p) && ProcInv(s, p) && Helping(s.procs[p].pc)
    ensures ProcInv(HelperStep(s, p), p)
  {
  }

  /** A step of `p` changes no other process and no issue. */
  lemma StepFrame(s: State, p: Pid)
    requires p in s.procs
    ensures var s' := StepOf(s, p);
            && s'.procs == s.procs[p := s.procs[p].(pc := s'.procs[p].pc)]
            && s'.issued == s.issued && s.dead <= s'.dead
  {
  }

  /** A cancellation that does not undercut the helper takes nothing the helper relies on. */
  lemma CancelledLeaseIsNotReliedOn(s: State, p: Pid)
    requires Inv(s) && Alive(s, p) && s.procs[p].pc.CancelTransfer? && !Undercuts(s, Step(p))
    requires Alive(s, s.procs[p].pc.helper) && Relies(s, s.procs[p].pc.helper)
    ensures StepOf(s, p).lease == s.lease
  {
    assert ProcInv(s, s.procs[p].pc.helper);
  }

  lemma StepKeepsInv(s: State, p: Pid)
    requires Inv(s) && Alive(s, p) && !Undercuts(s, Step(p))
    ensures Inv(StepOf(s, p))
  {
    var s' := StepOf(s, p);
    StepFrame(s, p);
    assert ProcInv(s, p);
    if Acquiring(s.procs[p].pc) {
      AcquireKeeps(s, p);
    } else if Helping(s.procs[p].pc) {
      HelperKeepsGlobals(s, p);
      HelperKeepsOwn(s, p);
    } else {
      if s.procs[p].pc.Transfer? { TransferKeepsGlobals(s, p); }
      else if Closing(s.procs[p].pc) { ClosingKeepsGlobals(s, p); }
      else { LauncherKeepsGlobals(s, p); }
      LauncherKeepsOwn(s, p);
    }
    forall q | q in s'.procs ensures ProcInv(s', q) {
      if q != p {
        if Relies(s, q) && q !in s'.dead {
          if s.procs[p].pc.CancelTransfer? && s.procs[p].pc.helper == q { CancelledLeaseIsNotReliedOn(s, p); }
          else { OthersLeaseStays(s, p, q); }
        }
        ProcFrame(s, s', q);
      }
    }
  }

  lemma FailKeepsOwn(s: State, p: Pid)
    requires Globals(s) && Alive(s, p) && ProcInv(s, p)
    ensures ProcInv(Next(s, Fail(p)), p)
  {
  }

  lemma SpawnKeepsInv(s: State, p: Pid, helper: Pid)
    requires Inv(s)
    ensures Inv(Next(s, Spawn(p, helper)))
  {
    var s' := Next(s, Spawn(p, helper));
    if s' != s {
      assert ProcInv(s, p);
      forall q | q in s'.procs ensures ProcInv(s', q) {
        if q != p && q != helper { ProcFrame(s, s', q); }
      }
    }
  }

  lemma BeginKeepsInv(s: State, e: Event)
    requires Inv(s) && (e.BeginUpdate? || e.BeginHandoff?)
    ensures Inv(Next(s, e))
  {
    var s' := Next(s, e);
    if s' != s {
      forall q | q in s'.procs ensures ProcInv(s', q) {
        if q != e.p { ProcFrame(s, s', q); }
      }
    }
  }

  lemma FailKeepsInv(s: State, p: Pid)
    requires Inv(s)
    ensures Inv(Next(s, Fail(p)))
  {
    if Alive(s, p) {
      var s' := Next(s, Fail(p));
      FailKeepsOwn(s, p);
      forall q | q in s'.procs && q != p ensures ProcInv(s', q) { ProcFrame(s, s', q); }
    }
  }

  lemma OtherEventsKeepInv(s: State, e: Event)
    requires Inv(s) && (e.Boot? || e.TerminateFails? || e.Die?)
    ensures Inv(Next(s, e))
  {
    var s' := Next(s, e);
    forall q | q in s'.procs ensures ProcInv(s', q) {
      if q in s.procs && (e.TerminateFails? ==> q != e.p) { ProcFrame(s, s', q); }
      if e.TerminateFails? && q == e.p { assert ProcInv(s, q); }
    }
  }

  lemma NextKeepsInv(s: State, e: Event)
    requires Inv(s) && !Undercuts(s, e)
    ensures Inv(Next(s, e))
  {
    match e
    case Step(p) => if Alive(s, p) { StepKeepsInv(s, p); }
    case Fail(p) => FailKeepsInv(s, p);
    case Spawn(p, helper) => SpawnKeepsInv(s, p, helper);
    case BeginUpdate(_, _) => BeginKeepsInv(s, e);
    case BeginHandoff(_, _, _) => BeginKeepsInv(s, e);
    case Boot(_) => OtherEventsKeepInv(s, e);
    case TerminateFails(_) => OtherEventsKeepInv(s, e);
    case Die(_) => OtherEventsKeepInv(s, e);
  }

  lemma {:induction false} RunKeepsInv(es: seq<Event>)
    requires SafeRun(es)
    ensures Inv(Exec(INIT, es))
  {
    if es != [] {
      RunKeepsInv(es[..|es|-1]);
      NextKeepsInv(Exec(INIT, es[..|es|-1]), es[|es|-1]);
    }
  }

  /** Whoever cancels a transfer has ended its helper. */
  predicate HelpersStopped(s: State) {
    forall p :: p in s.procs && s.procs[p].pc.CancelTransfer? ==> s.procs[p].pc.helper in s.dead
  }

  lemma NextKeepsHelpersStopped(s: State, e: Event)
    requires HelpersStopped(s) && !e.TerminateFails?
    ensures HelpersStopped(Next(s, e))
  {
    if e.Step? && Alive(s, e.p) { StepFrame(s, e.p); }
  }

  /** Where termination ends the helper, no cancellation undercuts one. */
  lemma {:induction false} TerminationMakesSafe(es: seq<Event>)
    requires Terminates(es)
    ensures SafeRun(es) && HelpersStopped(Exec(INIT, es))
  {
    if es != [] {
      TerminationMakesSafe(es[..|es|-1]);
      assert es[|es|-1] in es;
      NextKeepsHelpersStopped(Exec(INIT, es[..|es|-1]), es[|es|-1]);
    }
  }

  // ---------------------------------------------------------------- what every run guarantees

  lemma AtMostOneHolder(es: seq<Event>, p: Pid, q: Pid)
    requires SafeRun(es) && Holds(Exec(INIT, es), p) && Holds(Exec(INIT, es), q)
    ensures p == q
  {
    RunKeepsInv(es);
    var s := Exec(INIT, es);
    assert ProcInv(s, p) && ProcInv(s, q);
  }

  /**
   Installation runs only in a helper that holds the claimed lease, under the token its launcher
   acquired, after that launcher and the surface the launcher was asked to wait for have exited.
   */
  lemma InstallsOnlyUnderTheClaimedLease(es: seq<Event>, p: Pid)
    requires SafeRun(es)
    requires var s := Exec(INIT, es); Alive(s, p) && s.procs[p].pc.Installing?
    ensures var s := Exec(INIT, es);
            var h := s.procs[p].pc.handoff;
            && OwnerOf(s) == Some(Owner(p, h.token, Claimed))
            && h.token in s.issued && s.issued[h.token].blocking == Some(h.blocking)
            && s.procs[p].parent == Some(s.issued[h.token].creator)
            && !Alive(s, s.issued[h.token].creator) && !Alive(s, h.blocking)
  {
    RunKeepsInv(es);
    assert ProcInv(Exec(INIT, es), p);
  }

  function Rank(phase: Phase): nat {
    match phase case Owned => 0 case Transferred => 1 case Claimed => 2
  }

  /** Between two states the lease moved forward, if at all. */
  predicate MovesForward(s: State, s': State, e: Event)
    requires OwnerOf(s).Some?
  {
    var o := OwnerOf(s).value;
    s'.lease.None?
    || (OwnerOf(s').Some?
        && var o' := OwnerOf(s').value;
           && o'.token == o.token && Rank(o.phase) <= Rank(o'.phase) <= Rank(o.phase) + 1
           && (o'.pid != o.pid ==>
                 e == Step(o.pid) && o.phase.Owned? && o'.phase.Transferred? && ChildOf(s, o'.pid, o.pid)))
  }

  lemma StepMovesForward(s: State, p: Pid)
    requires Globals(s) && OwnerOf(s).Some? && Alive(s, p) && ProcInv(s, p)
    ensures MovesForward(s, StepOf(s, p), Step(p))
  {
  }

  /**
   While the lease has an owner its token never changes and its phase only moves forward, until the
   lease is gone; the owner changes only when it transfers the lease to a helper it started.
   */
  lemma LeaseOnlyMovesForward(es: seq<Event>, e: Event)
    requires SafeRun(es) && OwnerOf(Exec(INIT, es)).Some?
    ensures MovesForward(Exec(INIT, es), Next(Exec(INIT, es), e), e)
  {
    RunKeepsInv(es);
    var s := Exec(INIT, es);
    if e.Step? && Alive(s, e.p) { StepMovesForward(s, e.p); }
  }

  /**
   The lease of a live owner changes only by that owner's own step. In particular the launcher's
   release after a transfer never removes its helper's lease.
   */
  lemma LiveOwnerKeepsItsLease(es: seq<Event>, e: Event)
    requires Terminates(es + [e])
    requires OwnerOf(Exec(INIT, es)).Some?
    requires var p := OwnerOf(Exec(INIT, es)).value.pid; Alive(Next(Exec(INIT, es), e), p) && e != Step(p)
    ensures Next(Exec(INIT, es), e).lease == Exec(INIT, es).lease
  {
    assert forall x :: x in es ==> x in es + [e];
    assert e in es + [e];
    TerminationMakesSafe(es);
    RunKeepsInv(es);
    var s := Exec(INIT, es);
    if e.Step? && Alive(s, e.p) {
      assert ProcInv(s, e.p);
      OthersLeaseStays(s, e.p, OwnerOf(s).value.pid);
    }
  }

  // ---------------------------------------------------------------- exactly which runs are safe

  /** Every live process that acts under the lease is its owner on disk. */
  predicate HoldersOwn(s: State) {
    forall p :: p in s.procs && Holds(s, p) ==> OwnerOf(s).Some? && OwnerOf(s).value.pid == p
  }

  lemma InvHoldersOwn(s: State)
    requires Inv(s)
    ensures HoldersOwn(s)
  {
    forall p | p in s.procs && Holds(s, p) ensures OwnerOf(s).Some? && OwnerOf(s).value.pid == p {
      assert ProcInv(s, p);
    }
  }

  lemma UndercutLosesTheLease(s: State, e: Event)
    requires Undercuts(s, e)
    ensures !HoldersOwn(Next(s, e)) && Holds(Next(s, e), s.procs[e.p].pc.helper)
  {
    var h := s.procs[e.p].pc.helper;
    assert Next(s, e).procs[h] == s.procs[h];
    assert Holds(Next(s, e), h);
  }

  /**
   For every run: whoever acts under the lease owns it, at every moment of the run, if and only if no
   cancellation undercuts a helper. A helper that survives its termination is harmless as long as it
   has not claimed the lease, has stopped working under it, or the cancellation fails.
   */
  lemma {:induction false} HoldersOwnExactlyInSafeRuns(es: seq<Event>)
    ensures (forall k :: 0 <= k <= |es| ==> HoldersOwn(Exec(INIT, es[..k]))) <==> SafeRun(es)
  {
    if es == [] {
      assert es[..0] == es;
      InvHoldersOwn(INIT);
    } else {
      var before, n := es[..|es|-1], |es| - 1;
      var s, e := Exec(INIT, before), es[n];
      HoldersOwnExactlyInSafeRuns(before);
      assert forall k :: 0 <= k <= n ==> before[..k] == es[..k];
      assert es[..|es|] == es;
      if SafeRun(before) && Undercuts(s, e) {
        UndercutLosesTheLease(s, e);
        assert !HoldersOwn(Exec(INIT, es[..|es|]));
      } else if SafeRun(es) {
        RunKeepsInv(es);
        InvHoldersOwn(Exec(INIT, es));
      }
    }
  }

  // ---------------------------------------------------------------- why termination matters

  lemma Do(es: seq<Event>, s: State, e: Event) returns (es': seq<Event>, s': State)
    requires Exec(INIT, es) == s
    ensures es' == es + [e] && s' == Next(s, e) && Exec(INIT, es') == s'
  {
    es', s' := es + [e], Next(s, e);
    assert es'[..|es'|-1] == es;
  }

  /** A run in which launcher 1 has acquired for a handoff that blocks on surface 2. */
  lemma AcquiredRun() returns (es: seq<Event>, s: State)
    ensures Exec(INIT, es) == s && s.dead == {} && s.lease == Some(Lease(1, Some(Owner(1, 7, Owned))))
    ensures s.procs.Keys == {1, 2} && s.procs[1].pc == SpawnHelper(7) && s.handoff == Some(Handoff(7, 2))
    ensures s.issued.Keys == {7}
  {
    s := INIT;
    es := [];
    es, s := Do(es, s, Boot(1));
    es, s := Do(es, s, Boot(2));
    es, s := Do(es, s, BeginHandoff(1, 7, 2));
    es, s := Do(es, s, Step(1));
    es, s := Do(es, s, Step(1));
    es, s := Do(es, s, Step(1));
  }

  /** Its helper 3 has claimed the transferred lease and waits for the launcher to exit. */
  lemma ClaimedRun() returns (es: seq<Event>, s: State)
    ensures Exec(INIT, es) == s && s.dead == {} && s.lease == Some(Lease(1, Some(Owner(3, 7, Claimed))))
    ensures s.procs.Keys == {1, 2, 3} && s.procs[1].pc == WaitForClaim(7, 3)
    ensures s.procs[3] == Proc(Some(1), WaitForParent(Handoff(7, 2)))
    ensures s.issued.Keys == {7}
  {
    es, s := AcquiredRun();
    es, s := Do(es, s, Spawn(1, 3));
    es, s := Do(es, s, Step(1));
    es, s := Do(es, s, Step(3));
    es, s := Do(es, s, Step(3));
  }

  /** The launcher gives up waiting, fails to stop the helper, and cancels the lease under it. */
  lemma CancelledRun() returns (es: seq<Event>, s: State)
    ensures Exec(INIT, es) == s && s.dead == {} && s.lease.None?
    ensures s.procs.Keys == {1, 2, 3} && s.procs[3] == Proc(Some(1), WaitForParent(Handoff(7, 2)))
    ensures s.issued.Keys == {7}
  {
    es, s := ClaimedRun();
    es, s := Do(es, s, Fail(1));
    es, s := Do(es, s, TerminateFails(1));
    es, s := Do(es, s, Step(1));
  }

  /**
   The guarantees rest on termination ending the helper: in a run in which the helper survives, it
   goes on to install after its lease was cancelled.
   */
  lemma SurvivingHelperInstallsWithoutLease() returns (es: seq<Event>)
    ensures var s := Exec(INIT, es);
            Alive(s, 3) && s.procs[3].pc.Installing? && s.lease.None?
  {
    var s: State;
    es, s := CancelledRun();
    es, s := Do(es, s, Die(1));
    es, s := Do(es, s, Die(2));
    es, s := Do(es, s, Step(3));
    es, s := Do(es, s, Step(3));
  }

  /** Another updater acquires the lease that was cancelled under the helper: two act at once. */
  lemma SurvivingHelperSharesTheLease() returns (es: seq<Event>)
    ensures var s := Exec(INIT, es); Holds(s, 3) && Holds(s, 4)
  {
    var s: State;
    es, s := CancelledRun();
    es, s := Do(es, s, Boot(4));
    es, s := Do(es, s, BeginUpdate(4, 8));
    es, s := Do(es, s, Step(4));
    es, s := Do(es, s, Step(4));
  }

  /** The runs that can happen: all, or those in which termination ends the helper. */
  predicate Allowed(terminationIsSure: bool, es: seq<Event>) { terminationIsSure ==> Terminates(es) }

  predicate OneHolder(s: State) {
    forall p, q :: p in s.procs && q in s.procs && Holds(s, p) && Holds(s, q) ==> p == q
  }

  /** Installation runs only under the claimed lease, after the launcher and the surface have exited. */
  predicate InstallsSafely(s: State) {
    forall p :: p in s.procs && Alive(s, p) && s.procs[p].pc.Installing? ==>
      var h := s.procs[p].pc.handoff;
      && OwnerOf(s) == Some(Owner(p, h.token, Claimed))
      && h.token in s.issued && !Alive(s, s.issued[h.token].creator) && !Alive(s, h.blocking)
  }

  lemma GuaranteesOfSafeRuns(es: seq<Event>)
    requires SafeRun(es)
    ensures OneHolder(Exec(INIT, es)) && InstallsSafely(Exec(INIT, es))
  {
    var s := Exec(INIT, es);
    forall p, q | p in s.procs && q in s.procs && Holds(s, p) && Holds(s, q)
      ensures p == q
    {
      AtMostOneHolder(es, p, q);
    }
    forall p | p in s.procs && Alive(s, p) && s.procs[p].pc.Installing?
      ensures OwnerOf(s) == Some(Owner(p, s.procs[p].pc.handoff.token, Claimed))
    {
      InstallsOnlyUnderTheClaimedLease(es, p);
    }
    forall p | p in s.procs && Alive(s, p) && s.procs[p].pc.Installing?
      ensures var h := s.procs[p].pc.handoff;
              h.token in s.issued && !Alive(s, s.issued[h.token].creator) && !Alive(s, h.blocking)
    {
      InstallsOnlyUnderTheClaimedLease(es, p);
    }
  }

  /** Both guarantees hold over all runs exactly when termination is sure to end the helper. */
  lemma GuaranteesExactlyWhenTerminationIsSure(sure: bool)
    ensures (forall es :: Allowed(sure, es) ==> OneHolder(Exec(INIT, es))) <==> sure
    ensures (forall es :: Allowed(sure, es) ==> InstallsSafely(Exec(INIT, es))) <==> sure
  {
    if sure {
      forall es | Allowed(sure, es) ensures OneHolder(Exec(INIT, es)) && InstallsSafely(Exec(INIT, es)) {
        TerminationMakesSafe(es);
        GuaranteesOfSafeRuns(es);
      }
    } else {
      var two := SurvivingHelperSharesTheLease();
      assert Allowed(sure, two) && !OneHolder(Exec(INIT, two));
      var alone := SurvivingHelperInstallsWithoutLease();
      assert Allowed(sure, alone) && !InstallsSafely(Exec(INIT, alone));
    }
  }
}
