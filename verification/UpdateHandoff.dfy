/**
 The update handoff file: writers, claimers, removers and reapers in one directory, interleaved and
 dying anywhere. Each handoff is to be claimed at most once. The rules that make this so are
 parameters here, which gives the exact condition on them.
 */
module UpdateHandoff {
  import opened Common

  type Id = string

  datatype Handoff = Handoff(id: Id, createdAt: nat)

  /**
   `claimTtl` and `reapTtl` are the ages beyond which a handoff is no longer claimed, and a claimed
   record is reaped. `pathFirst`: a removal unlinks `handoff.json` before the claimed record.
   `readAndLink`: no time passes between a claimer reading `handoff.json` and linking it.
   */
  datatype Rules = Rules(claimTtl: nat, reapTtl: nat, pathFirst: bool, readAndLink: bool)

  /** The rules of the program, the two thresholds being one constant. */
  const PROGRAM := Rules(5 * 60 * 1000, 5 * 60 * 1000, true, true)

  /** A removal on its way: what it has decided to unlink next. */
  datatype Remover =
    | PathThenRecord(id: Id, matched: bool)
    | RecordOnly(id: Id)
    | PathOnly(id: Id)

  datatype State = State(
    now: nat,
    path: Option<Handoff>,
    records: map<Id, Handoff>,
    readers: multiset<Handoff>,
    linked: nat,
    removers: multiset<Remover>,
    written: set<Id>,
    claims: seq<Id>)

  datatype Event =
    | Tick(ms: nat)
    | Write(handoff: Handoff)
    | Read
    | Link(read: Handoff)
    | Claim
    | DropPath
    | RemoveStart(id: Id)
    | RemoveStep(remover: Remover)
    | Reap(id: Id, at: nat)
    | ClaimerDies
    | RemoverDies(remover: Remover)

  predicate HasId(file: Option<Handoff>, id: Id) { file.Some? && file.value.id == id }

  predicate Claimable(r: Rules, s: State) {
    s.path.Some? && s.path.value.createdAt <= s.now && s.now - s.path.value.createdAt <= r.claimTtl
  }

  predicate Enabled(r: Rules, s: State, e: Event) {
    match e
    case Tick(_) => true
    case Write(h) => h.id !in s.written && h.id !in s.records && s.path.None? && h.createdAt <= s.now
                     && s.now - h.createdAt <= r.claimTtl
    case Read => !r.readAndLink && Claimable(r, s)
    case Link(h) => !r.readAndLink && h in s.readers && s.path.Some? && h.id !in s.records
    case Claim => r.readAndLink && Claimable(r, s) && s.path.value.id !in s.records
    case DropPath => s.linked > 0
    case RemoveStart(id) => id in s.written
    case RemoveStep(remover) => remover in s.removers
    case Reap(id, at) =>
      at <= s.now && id in s.records
      && (s.records[id].id != id || at - s.records[id].createdAt > r.reapTtl)
    case ClaimerDies => s.linked > 0
    case RemoverDies(remover) => remover in s.removers
  }

  function DropRecord(records: map<Id, Handoff>, id: Id): map<Id, Handoff> {
    if id in records && records[id].id == id then records - {id} else records
  }

  function Next(r: Rules, s: State, e: Event): State
    requires Enabled(r, s, e)
  {
    match e
    case Tick(ms) => s.(now := s.now + ms)
    case Write(h) => s.(path := Some(h), written := s.written + {h.id})
    case Read => s.(readers := s.readers + multiset{s.path.value})
    case Link(h) => s.(readers := s.readers - multiset{h}, records := s.records[h.id := s.path.value],
                       linked := s.linked + 1, claims := s.claims + [h.id])
    case Claim => s.(records := s.records[s.path.value.id := s.path.value],
                     linked := s.linked + 1, claims := s.claims + [s.path.value.id])
    case DropPath => s.(path := None, linked := s.linked - 1)
    case RemoveStart(id) =>
      s.(removers := s.removers
          + multiset{if r.pathFirst then PathThenRecord(id, HasId(s.path, id)) else RecordOnly(id)})
    case RemoveStep(m) =>
      var rest := s.removers - multiset{m};
      (match m
       case PathThenRecord(id, matched) =>
         s.(removers := rest + multiset{RecordOnly(id)}, path := if matched then None else s.path)
       case RecordOnly(id) =>
         s.(removers := if r.pathFirst then rest else rest + multiset{PathOnly(id)},
            records := DropRecord(s.records, id))
       case PathOnly(id) =>
         s.(removers := rest, path := if HasId(s.path, id) then None else s.path))
    case Reap(id, _) => s.(records := s.records - {id})
    case ClaimerDies => s.(linked := s.linked - 1)
    case RemoverDies(m) => s.(removers := s.removers - multiset{m})
  }

  const INIT := State(0, None, map[], multiset{}, 0, multiset{}, {}, [])

  ghost predicate Runs(r: Rules, s: State, events: seq<Event>, t: State)
    decreases |events|
  {
    if events == [] then s == t
    else Enabled(r, s, events[0]) && Runs(r, Next(r, s, events[0]), events[1..], t)
  }

  // ---------------------------------------------------------------- safety

  predicate Sound(r: Rules) { r.claimTtl <= r.reapTtl && r.pathFirst && r.readAndLink }

  predicate Inv(r: Rules, s: State) {
    && NoRepeats(s.claims)
    && (s.path.Some? ==> s.path.value.id in s.written && s.path.value.createdAt <= s.now)
    && (forall id :: id in s.claims ==> id in s.written)
    && (forall id :: id in s.records ==> id in s.written && s.records[id].id == id)
    && (forall m :: m in s.removers ==> m.id in s.written && !m.PathOnly?)
    // a claimed handoff that is still in handoff.json keeps its record until it is too old to claim
    && (s.path.Some? && s.path.value.id in s.claims ==>
        (s.path.value.id in s.records && s.records[s.path.value.id] == s.path.value)
        || s.now - s.path.value.createdAt > r.claimTtl)
    // whoever is about to drop a record knows its handoff.json is gone
    && (forall m :: m in s.removers && m.RecordOnly? ==> !HasId(s.path, m.id))
    && (forall m :: m in s.removers && m.PathThenRecord? && !m.matched ==> !HasId(s.path, m.id))
  }

  lemma RemoverStepKeepsInv(r: Rules, s: State, m: Remover)
    requires Sound(r) && Inv(r, s) && Enabled(r, s, RemoveStep(m))
    ensures Inv(r, Next(r, s, RemoveStep(m)))
  {
    var t := Next(r, s, RemoveStep(m));
    forall n | n in t.removers
      ensures n.id in t.written && !n.PathOnly?
      ensures n.RecordOnly? ==> !HasId(t.path, n.id)
      ensures n.PathThenRecord? && !n.matched ==> !HasId(t.path, n.id)
    {
      assert n in s.removers || n == RecordOnly(m.id);
    }
  }

  lemma StepKeepsInv(r: Rules, s: State, e: Event)
    requires Sound(r) && Inv(r, s) && Enabled(r, s, e)
    ensures Inv(r, Next(r, s, e))
  {
    if e.RemoveStep? { RemoverStepKeepsInv(r, s, e.remover); }
  }

  lemma {:induction false} RunKeepsInv(r: Rules, s: State, events: seq<Event>, t: State)
    requires Sound(r) && Inv(r, s) && Runs(r, s, events, t)
    ensures Inv(r, t)
    decreases |events|
  {
    if events != [] {
      StepKeepsInv(r, s, events[0]);
      RunKeepsInv(r, Next(r, s, events[0]), events[1..], t);
    }
  }

  /** No run of writes, claims, removals and reaps claims a handoff twice. */
  ghost predicate ClaimsAtMostOnce(r: Rules) {
    forall events, t :: Runs(r, INIT, events, t) ==> NoRepeats(t.claims)
  }

  // ---------------------------------------------------------------- the condition is exact

  ghost predicate Reaches(r: Rules, t: State) { exists events :: Runs(r, INIT, events, t) }

  lemma Starts(r: Rules)
    ensures Reaches(r, INIT)
  {
    assert Runs(r, INIT, [], INIT);
  }

  lemma RunsOn(r: Rules, s: State, events: seq<Event>, t: State, e: Event)
    requires Runs(r, s, events, t) && Enabled(r, t, e)
    ensures Runs(r, s, events + [e], Next(r, t, e))
    decreases |events|
  {
    if events == [] {
      assert ([e])[1..] == [];
    } else {
      assert (events + [e])[1..] == events[1..] + [e];
      RunsOn(r, Next(r, s, events[0]), events[1..], t, e);
    }
  }

  lemma Then(r: Rules, s: State, e: Event) returns (t: State)
    requires Reaches(r, s) && Enabled(r, s, e)
    ensures t == Next(r, s, e) && Reaches(r, t)
  {
    var events :| Runs(r, INIT, events, s);
    RunsOn(r, INIT, events, s, e);
    t := Next(r, s, e);
  }

  lemma Twice(r: Rules, t: State, id: Id)
    requires Reaches(r, t) && t.claims == [id, id]
    ensures !ClaimsAtMostOnce(r)
  {
    assert t.claims[0] == t.claims[1];
  }

  /** Written at time 0 and claimed; the claimer has not unlinked `handoff.json` yet. */
  lemma ClaimedOnce(r: Rules, h: Handoff) returns (s: State)
    requires r.readAndLink && h.createdAt == 0
    ensures Reaches(r, s) && s == State(0, Some(h), map[h.id := h], multiset{}, 1, multiset{}, {h.id}, [h.id])
  {
    Starts(r);
    s := Then(r, INIT, Write(h));
    s := Then(r, s, Claim);
  }

  /** Reaping before a claim expires: the claimer dies, its record is reaped, the handoff is claimed again. */
  lemma EarlyReapClaimsTwice(r: Rules, h: Handoff)
    requires r.reapTtl < r.claimTtl && r.readAndLink && h.createdAt == 0
    ensures !ClaimsAtMostOnce(r)
  {
    var s := ClaimedOnce(r, h);
    s := Then(r, s, Tick(r.reapTtl + 1));
    s := Then(r, s, Reap(h.id, s.now));
    s := Then(r, s, Claim);
    Twice(r, s, h.id);
  }

  /** Unlinking the record first: in between, the handoff is claimed again. */
  lemma RecordFirstClaimsTwice(r: Rules, h: Handoff)
    requires !r.pathFirst && r.readAndLink && h.createdAt == 0
    ensures !ClaimsAtMostOnce(r)
  {
    var s := ClaimedOnce(r, h);
    s := Then(r, s, RemoveStart(h.id));
    s := Then(r, s, RemoveStep(RecordOnly(h.id)));
    s := Then(r, s, Claim);
    Twice(r, s, h.id);
  }

  lemma LinkedOnce(r: Rules, s: State, h: Handoff) returns (t: State)
    requires !r.readAndLink && Reaches(r, s)
    requires s == State(0, Some(h), map[], s.readers, 0, multiset{}, {h.id}, []) && h in s.readers
    ensures Reaches(r, t)
    ensures t == State(0, Some(h), map[h.id := h], s.readers - multiset{h}, 1, multiset{}, {h.id}, [h.id])
  {
    t := Then(r, s, Link(h));
  }

  lemma ReadTwiceLinkedOnce(r: Rules, h: Handoff) returns (s: State)
    requires !r.readAndLink && h.createdAt == 0
    ensures Reaches(r, s) && s == State(0, Some(h), map[h.id := h], multiset{h}, 1, multiset{}, {h.id}, [h.id])
  {
    Starts(r);
    s := Then(r, INIT, Write(h));
    s := Then(r, s, Read);
    s := Then(r, s, Read);
    assert s.readers == multiset{h, h} && multiset{h, h} - multiset{h} == multiset{h};
    s := LinkedOnce(r, s, h);
  }

  /** A claimer that stops between reading and linking: another claim expires and is reaped meanwhile. */
  lemma SlowClaimerClaimsTwice(r: Rules, h: Handoff)
    requires !r.readAndLink && h.createdAt == 0
    ensures !ClaimsAtMostOnce(r)
  {
    var s := ReadTwiceLinkedOnce(r, h);
    s := Then(r, s, Tick(r.reapTtl + 1));
    s := Then(r, s, Reap(h.id, s.now));
    s := Then(r, s, Link(h));
    Twice(r, s, h.id);
  }

  /**
   A handoff is claimed at most once in every run exactly when records are not reaped before claims
   expire, a removal unlinks `handoff.json` first, and a claimer reads and links in one go.
   */
  lemma AtMostOnceExactlyWhenSound(r: Rules)
    ensures ClaimsAtMostOnce(r) <==> Sound(r)
  {
    var h := Handoff("a", 0);
    if !r.readAndLink {
      SlowClaimerClaimsTwice(r, h);
    } else if !r.pathFirst {
      RecordFirstClaimsTwice(r, h);
    } else if r.reapTtl < r.claimTtl {
      EarlyReapClaimsTwice(r, h);
    } else {
      forall events, t | Runs(r, INIT, events, t) ensures NoRepeats(t.claims) {
        RunKeepsInv(r, INIT, events, t);
      }
    }
  }

  lemma ProgramClaimsAtMostOnce()
    ensures ClaimsAtMostOnce(PROGRAM)
  {
    AtMostOnceExactlyWhenSound(PROGRAM);
  }

  // ---------------------------------------------------------------- an undisturbed handoff

  lemma {:induction false} RunsConcat(r: Rules, s: State, a: seq<Event>, t: State, b: seq<Event>, u: State)
    requires Runs(r, s, a, t) && Runs(r, t, b, u)
    ensures Runs(r, s, a + b, u)
    decreases |a|
  {
    if a == [] {
      assert a + b == b;
    } else {
      assert (a + b)[1..] == a[1..] + b;
      RunsConcat(r, Next(r, s, a[0]), a[1..], t, b, u);
    }
  }

  lemma RunsThree(r: Rules, s: State, es: seq<Event>, s1: State, s2: State, t: State)
    requires |es| == 3
    requires Enabled(r, s, es[0]) && Next(r, s, es[0]) == s1
    requires Enabled(r, s1, es[1]) && Next(r, s1, es[1]) == s2
    requires Enabled(r, s2, es[2]) && Next(r, s2, es[2]) == t
    ensures Runs(r, s, es, t)
  {
    assert es[1..][1..][1..] == [];
    assert Runs(r, s2, es[1..][1..], t);
    assert Runs(r, s1, es[1..], t);
  }

  /** What a writer and a claimer do, and what a removal does. */
  function Taking(h: Handoff): seq<Event> { [Write(h), Claim, DropPath] }
  function Removing(id: Id): seq<Event> {
    [RemoveStart(id), RemoveStep(PathThenRecord(id, false)), RemoveStep(RecordOnly(id))]
  }

  lemma UndisturbedTaking(s: State, h: Handoff)
    requires s.path.None? && h.id !in s.written && h.id !in s.records
    requires h.createdAt <= s.now && s.now - h.createdAt <= PROGRAM.claimTtl
    ensures Runs(PROGRAM, s, Taking(h), s.(records := s.records[h.id := h], claims := s.claims + [h.id],
                                           written := s.written + {h.id}))
  {
    var written := s.(path := Some(h), written := s.written + {h.id});
    var claimed := written.(records := s.records[h.id := h], linked := s.linked + 1, claims := s.claims + [h.id]);
    RunsThree(PROGRAM, s, Taking(h), written, claimed, claimed.(path := None, linked := s.linked));
  }

  lemma UndisturbedRemoval(s: State, id: Id)
    requires s.path.None? && id in s.written && id in s.records && s.records[id].id == id
    ensures Runs(PROGRAM, s, Removing(id), s.(records := s.records - {id}))
  {
    var started := s.(removers := s.removers + multiset{PathThenRecord(id, false)});
    var next := s.(removers := s.removers + multiset{RecordOnly(id)});
    assert started.removers - multiset{PathThenRecord(id, false)} == s.removers;
    assert next.removers - multiset{RecordOnly(id)} == s.removers;
    RunsThree(PROGRAM, s, Removing(id), started, next, s.(records := s.records - {id}));
  }

  /**
   An undisturbed handoff, from any state with no handoff waiting: it can be written, is claimed once,
   and once it has been removed nothing of it is left, so that the next one can be written.
   */
  lemma UndisturbedHandoff(s: State, h: Handoff)
    requires s.path.None? && h.id !in s.written && h.id !in s.records
    requires h.createdAt <= s.now && s.now - h.createdAt <= PROGRAM.claimTtl
    ensures Runs(PROGRAM, s, Taking(h) + Removing(h.id),
                 s.(claims := s.claims + [h.id], written := s.written + {h.id}))
  {
    var taken := s.(records := s.records[h.id := h], claims := s.claims + [h.id], written := s.written + {h.id});
    UndisturbedTaking(s, h);
    UndisturbedRemoval(taken, h.id);
    assert s.records[h.id := h] - {h.id} == s.records;
    RunsConcat(PROGRAM, s, Taking(h), taken, Removing(h.id), taken.(records := s.records));
  }

  /** What a dead claimer left is reaped once it is too old, and no earlier. */
  lemma ReapingWaits(s: State, id: Id, at: nat)
    requires Inv(PROGRAM, s) && id in s.records && at <= s.now
    ensures Enabled(PROGRAM, s, Reap(id, at)) <==> at - s.records[id].createdAt > PROGRAM.reapTtl
    ensures Enabled(PROGRAM, s, Reap(id, at)) ==> id !in Next(PROGRAM, s, Reap(id, at)).records
  {
  }
}
