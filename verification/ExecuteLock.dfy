/**
  The execute lock of the research wave: any number of processes contend for one lock file
  through exclusive create (POSIX.1-2017 open() with O_CREAT and O_EXCL is atomic). Create,
  stat, unlink and the second create are separate steps, so processes interleave between them.
  */
module ExecuteLock {
  import opened Wrappers

  datatype LockFile = LockFile(owner: nat, mtime: real)

  /** Where a process stands in acquire, in the execute branch, or after it. */
  datatype Phase =
    | Begin      // about to create
    | Contended  // the create failed and a positive stale threshold was given; about to stat
    | Stale      // the stat said stale; about to unlink
    | Unlinked   // about to create again
    | Acquired   // the create succeeded; about to write the payload
    | Working
    | Finished   // the worker returned; about to release
    | Released
    | Blocked
    | Retained   // the worker raised: the lock file is kept on purpose
    | Dead       // killed, or ended by an exception nobody catches

  datatype Proc = Proc(phase: Phase, staleMinutes: Option<real>)

  datatype System = System(lock: Option<LockFile>, procs: seq<Proc>, clock: real)

  datatype Action =
    | Create(p: nat)
    | Stat(p: nat)
    | UnlinkStale(p: nat)
    | CreateAgain(p: nat)
    | WritePayload(p: nat, ok: bool)
    | Work(p: nat, raised: bool)
    | Release(p: nat)
    | Kill(p: nat)
    | SetClock(now: real)

  predicate Holding(ph: Phase) {
    ph.Acquired? || ph.Working? || ph.Finished?
  }

  predicate Ended(ph: Phase) {
    ph.Released? || ph.Blocked? || ph.Retained? || ph.Dead?
  }

  predicate TakingOver(ph: Phase) {
    ph.Stale? || ph.Unlinked?
  }

  /** The threshold counts only when given and positive. */
  predicate MayTakeOver(q: Proc) {
    q.staleMinutes.Some? && 0.0 < q.staleMinutes.value
  }

  predicate IsStale(f: LockFile, q: Proc, now: real) {
    MayTakeOver(q) && q.staleMinutes.value * 60.0 < now - f.mtime
  }

  predicate At(s: System, p: nat, ph: Phase) {
    p < |s.procs| && s.procs[p].phase == ph
  }

  predicate Enabled(s: System, a: Action) {
    match a
    case Create(p) => At(s, p, Begin)
    case Stat(p) => At(s, p, Contended)
    case UnlinkStale(p) => At(s, p, Stale)
    case CreateAgain(p) => At(s, p, Unlinked)
    case WritePayload(p, _) => At(s, p, Acquired)
    case Work(p, _) => At(s, p, Working)
    case Release(p) => At(s, p, Finished)
    case Kill(p) => p < |s.procs| && !Ended(s.procs[p].phase)
    case SetClock(_) => true
  }

  function Goto(s: System, p: nat, ph: Phase): System
    requires p < |s.procs|
  {
    s.(procs := s.procs[p := s.procs[p].(phase := ph)])
  }

  /** The create itself: it succeeds exactly when there is no file. */
  function TryCreate(s: System, p: nat, otherwise: Phase): System
    requires p < |s.procs|
  {
    if s.lock.None? then Goto(s, p, Acquired).(lock := Some(LockFile(p, s.clock)))
    else Goto(s, p, otherwise)
  }

  function Next(s: System, a: Action): System
    requires Enabled(s, a)
  {
    match a
    case Create(p) => TryCreate(s, p, if MayTakeOver(s.procs[p]) then Contended else Blocked)
    case Stat(p) =>
      if s.lock.None? then Goto(s, p, Dead)  // stat raises: the file went away
      else if IsStale(s.lock.value, s.procs[p], s.clock) then Goto(s, p, Stale)
      else Goto(s, p, Blocked)
    case UnlinkStale(p) => Goto(s, p, Unlinked).(lock := None)
    case CreateAgain(p) => TryCreate(s, p, Blocked)
    case WritePayload(p, ok) =>
      var touched := if s.lock.Some? && s.lock.value.owner == p then Some(LockFile(p, s.clock)) else s.lock;
      Goto(s, p, if ok then Working else Dead).(lock := touched)
    case Work(p, raised) => Goto(s, p, if raised then Retained else Finished)
    case Release(p) => Goto(s, p, Released).(lock := None)
    case Kill(p) => Goto(s, p, Dead)
    case SetClock(now) => s.(clock := now)
  }

  /** Writing the payload refreshes the stamp of the writer's own file and of no other. */
  lemma PayloadStamps(s: System, p: nat, ok: bool)
    requires Enabled(s, WritePayload(p, ok)) && s.lock.Some?
    ensures var lock := Next(s, WritePayload(p, ok)).lock;
            && lock.Some? && lock.value.owner == s.lock.value.owner
            && lock.value.mtime == if s.lock.value.owner == p then s.clock else s.lock.value.mtime
  {
  }

  // ----- interleavings

  ghost predicate Follows(s: System, trace: seq<Action>)
    decreases trace
  {
    trace == [] || (Enabled(s, trace[0]) && Follows(Next(s, trace[0]), trace[1..]))
  }

  function Execute(s: System, trace: seq<Action>): System
    requires Follows(s, trace)
    decreases trace
  {
    if trace == [] then s else Execute(Next(s, trace[0]), trace[1..])
  }

  /** Every process at the start of acquire or over; a lock file, if any, was left by one that is over. */
  ghost predicate Initial(s: System) {
    && (s.lock.Some? ==> Orphaned(s))
    && (forall p :: 0 <= p < |s.procs| ==> s.procs[p].phase.Begin? || Ended(s.procs[p].phase))
  }

  // ----- exclusion

  /** Whoever is between acquire and release is the creator of the file that is there. */
  ghost predicate Owned(s: System) {
    forall p :: 0 <= p < |s.procs| && Holding(s.procs[p].phase) ==> s.lock.Some? && s.lock.value.owner == p
  }

  lemma OwnedMeansExclusive(s: System, p: nat, q: nat)
    requires Owned(s) && p < |s.procs| && q < |s.procs|
    requires Holding(s.procs[p].phase) && Holding(s.procs[q].phase)
    ensures p == q
  {
  }

  /** A takeover about to remove the file of a process that still holds the lock. */
  predicate RemovesLive(s: System, a: Action) {
    && a.UnlinkStale?
    && s.lock.Some?
    && s.lock.value.owner < |s.procs|
    && Holding(s.procs[s.lock.value.owner].phase)
  }

  /** One step keeps ownership exactly when it is not such a takeover. */
  lemma StepKeepsOwnershipIff(s: System, a: Action)
    requires Enabled(s, a) && Owned(s)
    ensures Owned(Next(s, a)) <==> !RemovesLive(s, a)
  {
    if RemovesLive(s, a) {
      var o := s.lock.value.owner;
      assert Holding(Next(s, a).procs[o].phase);
    }
  }

  ghost predicate AlwaysOwned(s: System, trace: seq<Action>)
    requires Follows(s, trace)
    decreases trace
  {
    Owned(s) && (trace == [] || AlwaysOwned(Next(s, trace[0]), trace[1..]))
  }

  ghost predicate NeverRemovesLive(s: System, trace: seq<Action>)
    requires Follows(s, trace)
    decreases trace
  {
    trace == [] || (!RemovesLive(s, trace[0]) && NeverRemovesLive(Next(s, trace[0]), trace[1..]))
  }

  /** Over a whole interleaving: the file stays its holder's throughout iff no takeover removes a live holder's file. */
  lemma {:induction false} LockHoldsIffNoLiveTakeover(s: System, trace: seq<Action>)
    requires Follows(s, trace) && Owned(s)
    ensures AlwaysOwned(s, trace) <==> NeverRemovesLive(s, trace)
    decreases trace
  {
    if trace != [] {
      StepKeepsOwnershipIff(s, trace[0]);
      if Owned(Next(s, trace[0])) {
        LockHoldsIffNoLiveTakeover(Next(s, trace[0]), trace[1..]);
      }
    }
  }

  // ----- without a stale threshold

  /** A process about to start with a stale threshold. */
  ghost predicate Taker(s: System, p: nat) {
    p < |s.procs| && s.procs[p].phase.Begin? && MayTakeOver(s.procs[p])
  }

  ghost predicate NoThreshold(s: System) {
    forall p :: 0 <= p < |s.procs| ==>
      (s.procs[p].phase.Begin? ==> !MayTakeOver(s.procs[p]))
      && !s.procs[p].phase.Contended? && !TakingOver(s.procs[p].phase)
  }

  /** Every interleaving of any number of processes excludes, and only the creator unlinks. */
  lemma {:induction false} ExclusionWithoutThreshold(s: System, trace: seq<Action>)
    requires Follows(s, trace) && Owned(s) && NoThreshold(s)
    ensures AlwaysOwned(s, trace) && OnlyCreatorsUnlink(s, trace)
    ensures NoThreshold(Execute(s, trace))
    decreases trace
  {
    if trace != [] {
      StepKeepsOwnershipIff(s, trace[0]);
      ExclusionWithoutThreshold(Next(s, trace[0]), trace[1..]);
    }
  }

  ghost predicate OnlyCreatorsUnlink(s: System, trace: seq<Action>)
    requires Follows(s, trace)
    decreases trace
  {
    trace == []
    || ((s.lock.Some? && Next(s, trace[0]).lock.None? ==> trace[0] == Release(s.lock.value.owner))
        && OnlyCreatorsUnlink(Next(s, trace[0]), trace[1..]))
  }

  /** The file of a process that raised or died. */
  ghost predicate Orphaned(s: System) {
    s.lock.Some? && s.lock.value.owner < |s.procs| && Ended(s.procs[s.lock.value.owner].phase)
  }

  /** With no threshold around, no acquire succeeds after a worker exception (or a death), in any continuation. */
  lemma {:induction false} RetainedLockBlocksForever(s: System, trace: seq<Action>)
    requires Follows(s, trace) && Owned(s) && NoThreshold(s) && Orphaned(s)
    ensures var s' := Execute(s, trace);
            && s'.lock == s.lock && Orphaned(s')
            && forall p :: 0 <= p < |s'.procs| ==> !Holding(s'.procs[p].phase)
    decreases trace
  {
    if trace != [] {
      StepKeepsOwnershipIff(s, trace[0]);
      RetainedLockBlocksForever(Next(s, trace[0]), trace[1..]);
    }
  }

  // ----- with takeover

  /**
    What a deployment must ensure about thresholds: a lock is judged stale only after its owner
    has ended, and only while no other takeover is under way.
    */
  ghost predicate Careful(s: System, a: Action) {
    a.Stat? && a.p < |s.procs| && s.lock.Some? && IsStale(s.lock.value, s.procs[a.p], s.clock) ==>
      && Orphaned(s)
      && forall q :: 0 <= q < |s.procs| ==> !TakingOver(s.procs[q].phase)
  }

  ghost predicate CarefulThroughout(s: System, trace: seq<Action>)
    requires Follows(s, trace)
    decreases trace
  {
    trace == [] || (Careful(s, trace[0]) && CarefulThroughout(Next(s, trace[0]), trace[1..]))
  }

  ghost predicate OneTakeover(s: System) {
    forall p, q :: (0 <= p < |s.procs| && TakingOver(s.procs[p].phase)
                    && 0 <= q < |s.procs| && TakingOver(s.procs[q].phase)) ==> p == q
  }

  ghost predicate AimsAtOrphan(s: System) {
    forall p :: 0 <= p < |s.procs| && s.procs[p].phase.Stale? ==> Orphaned(s)
  }

  /** Ownership, at most one takeover at a time, and that one aims at an orphaned file. */
  ghost predicate TakeoverInv(s: System) {
    Owned(s) && OneTakeover(s) && AimsAtOrphan(s)
  }

  lemma CarefulStepKeepsOneTakeover(s: System, a: Action)
    requires Enabled(s, a) && TakeoverInv(s) && Careful(s, a)
    ensures OneTakeover(Next(s, a))
  {
  }

  lemma CarefulStepKeepsAim(s: System, a: Action)
    requires Enabled(s, a) && TakeoverInv(s) && Careful(s, a)
    ensures AimsAtOrphan(Next(s, a))
  {
  }

  lemma CarefulStepKeepsInv(s: System, a: Action)
    requires Enabled(s, a) && TakeoverInv(s) && Careful(s, a)
    ensures TakeoverInv(Next(s, a)) && !RemovesLive(s, a)
  {
    CarefulStepKeepsOneTakeover(s, a);
    CarefulStepKeepsAim(s, a);
    StepKeepsOwnershipIff(s, a);
  }

  /** Stale takeover excludes too, as long as thresholds are careful. */
  lemma {:induction false} ExclusionWithCarefulTakeover(s: System, trace: seq<Action>)
    requires Follows(s, trace) && TakeoverInv(s) && CarefulThroughout(s, trace)
    ensures AlwaysOwned(s, trace)
    decreases trace
  {
    if trace != [] {
      CarefulStepKeepsInv(s, trace[0]);
      ExclusionWithCarefulTakeover(Next(s, trace[0]), trace[1..]);
    }
  }

  lemma InitialIsSafe(s: System)
    requires Initial(s)
    ensures Owned(s) && TakeoverInv(s)
    ensures (forall p: nat :: !Taker(s, p)) ==> NoThreshold(s)
  {
    if forall p: nat :: !Taker(s, p) {
      forall p: nat | p < |s.procs| && s.procs[p].phase.Begin?
        ensures !MayTakeOver(s.procs[p])
      {
        assert !Taker(s, p);
      }
    }
  }

  // ----- single steps of an interleaving

  lemma Then(s: System, a: Action, trace: seq<Action>)
    requires Enabled(s, a) && Follows(Next(s, a), trace)
    ensures Follows(s, [a] + trace) && Execute(s, [a] + trace) == Execute(Next(s, a), trace)
  {
    assert ([a] + trace)[1..] == trace;
  }

  lemma {:induction false} ThenAgain(s: System, trace: seq<Action>, a: Action)
    requires Follows(s, trace) && Enabled(Execute(s, trace), a)
    ensures Follows(s, trace + [a]) && Execute(s, trace + [a]) == Next(Execute(s, trace), a)
    decreases trace
  {
    if trace == [] {
      Then(s, a, []);
      assert trace + [a] == [a] + [];
    } else {
      ThenAgain(Next(s, trace[0]), trace[1..], a);
      Then(s, trace[0], trace[1..] + [a]);
      assert trace + [a] == [trace[0]] + (trace[1..] + [a]);
    }
  }

  /** One more step of an interleaving that has reached `now`. */
  lemma Onward(s: System, trace: seq<Action>, now: System, a: Action) returns (trace': seq<Action>, next: System)
    requires Follows(s, trace) && Execute(s, trace) == now && Enabled(now, a)
    ensures Follows(s, trace') && Execute(s, trace') == next && next == Next(now, a)
  {
    ThenAgain(s, trace, a);
    trace', next := trace + [a], Next(now, a);
  }

  // ----- exclusion itself, from the start states

  /** At most one process is between acquire and release. */
  ghost predicate Exclusive(s: System) {
    forall p, q :: 0 <= p < |s.procs| && 0 <= q < |s.procs| && Holding(s.procs[p].phase) && Holding(s.procs[q].phase)
                   ==> p == q
  }

  ghost predicate AlwaysExclusive(s: System, trace: seq<Action>)
    requires Follows(s, trace)
    decreases trace
  {
    Exclusive(s) && (trace == [] || AlwaysExclusive(Next(s, trace[0]), trace[1..]))
  }

  /** The lock works, whatever the interleaving. */
  ghost predicate Excludes(s: System) {
    forall trace :: Follows(s, trace) ==> AlwaysExclusive(s, trace)
  }

  /**
    What can be checked before the processes start: with the lock free, no process with a
    threshold has company; with an orphaned file there, at most one process has a threshold.
    */
  ghost predicate SafeStart(s: System) {
    forall p: nat, q: nat :: Taker(s, p) && q < |s.procs| && s.procs[q].phase.Begin? && p != q ==>
      s.lock.Some? && !MayTakeOver(s.procs[q])
  }

  lemma {:induction false} ExclusiveAtTheEnd(s: System, trace: seq<Action>)
    requires Follows(s, trace) && AlwaysExclusive(s, trace)
    ensures Exclusive(Execute(s, trace))
    decreases trace
  {
    if trace != [] {
      ExclusiveAtTheEnd(Next(s, trace[0]), trace[1..]);
    }
  }

  lemma {:induction false} OwnedThroughoutExcludes(s: System, trace: seq<Action>)
    requires Follows(s, trace) && AlwaysOwned(s, trace)
    ensures AlwaysExclusive(s, trace)
    decreases trace
  {
    if trace != [] {
      OwnedThroughoutExcludes(Next(s, trace[0]), trace[1..]);
    }
  }

  ghost predicate AtMostOneRunning(s: System) {
    forall p, q :: 0 <= p < |s.procs| && 0 <= q < |s.procs| && !Ended(s.procs[p].phase) && !Ended(s.procs[q].phase)
                   ==> p == q
  }

  lemma {:induction false} OneRunningExcludes(s: System, trace: seq<Action>)
    requires Follows(s, trace) && AtMostOneRunning(s)
    ensures AlwaysExclusive(s, trace)
    decreases trace
  {
    if trace != [] {
      OneRunningExcludes(Next(s, trace[0]), trace[1..]);
    }
  }

  predicate BeforeUnlink(ph: Phase) {
    ph.Begin? || ph.Contended? || ph.Stale?
  }

  /** Nobody but t takes over. */
  ghost predicate OthersNeverTake(s: System, t: nat) {
    forall p :: 0 <= p < |s.procs| && p != t ==>
      (s.procs[p].phase.Begin? ==> !MayTakeOver(s.procs[p]))
      && !s.procs[p].phase.Contended? && !TakingOver(s.procs[p].phase)
  }

  /** Only t takes over, once, and until it has unlinked the orphaned file is still there. */
  ghost predicate SoleTaker(s: System, t: nat) {
    Owned(s) && OthersNeverTake(s, t) && (t < |s.procs| && BeforeUnlink(s.procs[t].phase) ==> Orphaned(s))
  }

  /** The orphaned file is removed by t's takeover at the earliest. */
  lemma OrphanStays(s: System, t: nat, a: Action)
    requires Enabled(s, a) && SoleTaker(s, t) && t < |s.procs| && BeforeUnlink(Next(s, a).procs[t].phase)
    ensures Orphaned(Next(s, a))
  {
    assert BeforeUnlink(s.procs[t].phase);
  }

  lemma OthersStayOut(s: System, t: nat, a: Action)
    requires Enabled(s, a) && SoleTaker(s, t)
    ensures OthersNeverTake(Next(s, a), t)
  {
  }

  lemma SoleTakerStep(s: System, t: nat, a: Action)
    requires Enabled(s, a) && SoleTaker(s, t)
    ensures SoleTaker(Next(s, a), t)
  {
    StepKeepsOwnershipIff(s, a);
    OthersStayOut(s, t, a);
    if t < |s.procs| && BeforeUnlink(Next(s, a).procs[t].phase) {
      OrphanStays(s, t, a);
    }
  }

  lemma {:induction false} SoleTakerExcludes(s: System, t: nat, trace: seq<Action>)
    requires Follows(s, trace) && SoleTaker(s, t)
    ensures AlwaysExclusive(s, trace)
    decreases trace
  {
    if trace != [] {
      SoleTakerStep(s, t, trace[0]);
      SoleTakerExcludes(Next(s, trace[0]), t, trace[1..]);
    }
  }

  lemma SafeStartExcludes(s: System, trace: seq<Action>)
    requires Initial(s) && SafeStart(s) && Follows(s, trace)
    ensures AlwaysExclusive(s, trace)
  {
    InitialIsSafe(s);
    if t: nat :| Taker(s, t) {
      if s.lock.Some? {
        SoleTakerExcludes(s, t, trace);
      } else {
        OneRunningExcludes(s, trace);
      }
    } else {
      ExclusionWithoutThreshold(s, trace);
      OwnedThroughoutExcludes(s, trace);
    }
  }

  /** A clock at which both processes judge the file stale. */
  function Late(f: LockFile, p: Proc, q: Proc): (now: real)
    ensures MayTakeOver(p) ==> IsStale(f, p, now)
    ensures MayTakeOver(q) ==> IsStale(f, q, now)
  {
    var a := if p.staleMinutes.Some? then p.staleMinutes.value * 60.0 else 0.0;
    var b := if q.staleMinutes.Some? then q.staleMinutes.value * 60.0 else 0.0;
    f.mtime + (if a < b then b else a) + 1.0
  }

  /** p and q both hold the lock, and nobody else has moved. */
  ghost predicate BothHold(s: System, s': System, p: nat, q: nat) {
    && |s'.procs| == |s.procs| && p < |s.procs| && q < |s.procs|
    && Holding(s'.procs[p].phase) && Holding(s'.procs[q].phase)
    && forall r :: 0 <= r < |s.procs| && r != p && r != q ==> s'.procs[r] == s.procs[r]
  }

  /** The lock free: q gets it and works, and p judges it stale. */
  lemma WorkerJudgedStale(s: System, p: nat, q: nat) returns (trace: seq<Action>, now: System)
    requires s.lock.None? && Taker(s, p) && q < |s.procs| && s.procs[q].phase.Begin? && p != q
    ensures Follows(s, trace) && Execute(s, trace) == now
    ensures now.procs == s.procs[q := s.procs[q].(phase := Acquired)][p := s.procs[p].(phase := Stale)]
  {
    var f := LockFile(q, s.clock);
    now := s;
    trace := [];
    trace, now := Onward(s, trace, now, Create(q));
    trace, now := Onward(s, trace, now, SetClock(Late(f, s.procs[p], s.procs[p])));
    trace, now := Onward(s, trace, now, Create(p));
    assert now.procs[p] == Proc(Contended, s.procs[p].staleMinutes) && now.lock == Some(f);
    trace, now := Onward(s, trace, now, Stat(p));
  }

  /** It then takes the lock over from q, which still works. */
  lemma TakerBesideWorker(s: System, p: nat, q: nat) returns (trace: seq<Action>)
    requires s.lock.None? && Taker(s, p) && q < |s.procs| && s.procs[q].phase.Begin? && p != q
    ensures Follows(s, trace) && BothHold(s, Execute(s, trace), p, q)
  {
    var now: System;
    trace, now := WorkerJudgedStale(s, p, q);
    trace, now := Onward(s, trace, now, UnlinkStale(p));
    trace, now := Onward(s, trace, now, CreateAgain(p));
  }

  /** Both takers have found the orphaned file stale. */
  lemma BothJudgeStale(s: System, p: nat, q: nat) returns (trace: seq<Action>, now: System)
    requires s.lock.Some? && Taker(s, p) && Taker(s, q) && p != q
    ensures Follows(s, trace) && Execute(s, trace) == now
    ensures now.procs == s.procs[p := s.procs[p].(phase := Stale)][q := s.procs[q].(phase := Stale)]
  {
    var f := s.lock.value;
    now := s;
    trace := [];
    trace, now := Onward(s, trace, now, Create(p));
    trace, now := Onward(s, trace, now, Create(q));
    assert now.lock == s.lock && At(now, p, Contended) && At(now, q, Contended);
    trace, now := Onward(s, trace, now, SetClock(Late(f, s.procs[p], s.procs[q])));
    assert IsStale(f, now.procs[p], now.clock) && IsStale(f, now.procs[q], now.clock);
    trace, now := Onward(s, trace, now, Stat(p));
    trace, now := Onward(s, trace, now, Stat(q));
  }

  /** An orphaned file: two takeovers interleave between stat and unlink, and both acquire. */
  lemma TwoTakers(s: System, p: nat, q: nat) returns (trace: seq<Action>)
    requires s.lock.Some? && Taker(s, p) && Taker(s, q) && p != q
    ensures Follows(s, trace) && BothHold(s, Execute(s, trace), p, q)
  {
    var now: System;
    trace, now := BothJudgeStale(s, p, q);
    trace, now := Onward(s, trace, now, UnlinkStale(p));
    trace, now := Onward(s, trace, now, CreateAgain(p));
    trace, now := Onward(s, trace, now, UnlinkStale(q));
    trace, now := Onward(s, trace, now, CreateAgain(q));
  }

  lemma UnsafeStartBreaks(s: System) returns (trace: seq<Action>)
    requires Initial(s) && !SafeStart(s)
    ensures Follows(s, trace) && !AlwaysExclusive(s, trace)
  {
    var p: nat, q: nat :|
      Taker(s, p) && q < |s.procs| && s.procs[q].phase.Begin? && p != q && (s.lock.None? || MayTakeOver(s.procs[q]));
    if s.lock.None? {
      trace := TakerBesideWorker(s, p, q);
    } else {
      trace := TwoTakers(s, p, q);
    }
    if AlwaysExclusive(s, trace) {
      ExclusiveAtTheEnd(s, trace);
    }
  }

  /** Mutual exclusion over every interleaving, exactly: it holds if and only if the start is safe. */
  lemma ExcludesIffSafeStart(s: System)
    requires Initial(s)
    ensures Excludes(s) <==> SafeStart(s)
  {
    if SafeStart(s) {
      forall trace | Follows(s, trace)
        ensures AlwaysExclusive(s, trace)
      {
        SafeStartExcludes(s, trace);
      }
    } else {
      var trace := UnsafeStartBreaks(s);
    }
  }

  ghost predicate NobodyHolds(s: System) {
    forall p :: 0 <= p < |s.procs| ==> !Holding(s.procs[p].phase)
  }

  lemma OneTaker(s: System, p: nat) returns (trace: seq<Action>)
    requires s.lock.Some? && Taker(s, p)
    ensures Follows(s, trace) && !NobodyHolds(Execute(s, trace))
  {
    var f := s.lock.value;
    var now := s;
    trace := [];
    trace, now := Onward(s, trace, now, Create(p));
    trace, now := Onward(s, trace, now, SetClock(Late(f, s.procs[p], s.procs[p])));
    assert At(now, p, Contended) && IsStale(f, now.procs[p], now.clock);
    trace, now := Onward(s, trace, now, Stat(p));
    trace, now := Onward(s, trace, now, UnlinkStale(p));
    trace, now := Onward(s, trace, now, CreateAgain(p));
    assert At(now, p, Acquired);
  }

  /** A retained lock file blocks every later acquire for good if and only if no waiting process has a threshold. */
  lemma RetainedLockBlocksIff(s: System)
    requires Initial(s) && s.lock.Some?
    ensures (forall trace :: Follows(s, trace) ==> NobodyHolds(Execute(s, trace))) <==> forall p: nat :: !Taker(s, p)
  {
    if p: nat :| Taker(s, p) {
      var trace := OneTaker(s, p);
    } else {
      InitialIsSafe(s);
      forall trace | Follows(s, trace)
        ensures NobodyHolds(Execute(s, trace))
      {
        RetainedLockBlocksForever(s, trace);
      }
    }
  }

  function Waiting(): Proc {
    Proc(Begin, Some(1.0))
  }

  /** A threshold shorter than the work: process 1 takes the lock from process 0, which still works. */
  lemma SlowOwnerLosesTheLock() returns (s: System, trace: seq<Action>)
    ensures Initial(s) && Follows(s, trace)
    ensures var s' := Execute(s, trace);
            |s'.procs| == 2 && Holding(s'.procs[0].phase) && Holding(s'.procs[1].phase)
  {
    s := System(None, [Waiting(), Waiting()], 0.0);
    trace := TakerBesideWorker(s, 1, 0);
  }

  /** The owner is long dead, but two takeovers interleave between stat and unlink: both acquire. */
  lemma InterleavedTakeoversBothAcquire() returns (s: System, trace: seq<Action>)
    ensures Initial(s) && Follows(s, trace)
    ensures var s' := Execute(s, trace);
            |s'.procs| == 3 && s'.procs[0].phase.Dead? && Holding(s'.procs[1].phase) && Holding(s'.procs[2].phase)
  {
    s := System(Some(LockFile(0, 0.0)), [Proc(Dead, None), Waiting(), Waiting()], 0.0);
    trace := TwoTakers(s, 1, 2);
  }

  // ----- the code of one process, run without interference

  /** There is no lock file, or it is older than a positive threshold, given in minutes. */
  ghost predicate MayBeTaken(lock: Option<LockFile>, staleMinutes: Option<real>, now: real) {
    lock.None? || (staleMinutes.Some? && staleMinutes.value > 0.0 && now - lock.value.mtime > staleMinutes.value * 60.0)
  }

  datatype WaveResult = BlockedConcurrentWave | Executed(lockRetained: bool) | Crashed

  class LockClient {
    var lock: Option<LockFile>
    var procs: seq<Proc>
    var clock: real
    ghost var origin: System
    ghost var trace: seq<Action>

    ghost function View(): System
      reads this
    {
      System(lock, procs, clock)
    }

    /** The fields are what the recorded steps make of the recorded start. */
    ghost predicate Valid()
      reads this
    {
      Follows(origin, trace) && View() == Execute(origin, trace)
    }

    constructor (s: System)
      ensures Valid() && View() == s && origin == s && trace == []
    {
      lock, procs, clock := s.lock, s.procs, s.clock;
      origin, trace := s, [];
    }

    /** One system call or one stretch of local work of process a.p. */
    method Do(a: Action)
      requires Valid() && Enabled(View(), a)
      modifies this
      ensures Valid() && View() == Next(old(View()), a)
      ensures origin == old(origin) && trace == old(trace) + [a]
    {
      var s := Next(System(lock, procs, clock), a);
      ThenAgain(origin, trace, a);
      lock, procs, clock := s.lock, s.procs, s.clock;
      trace := trace + [a];
    }

    /** `payloadOk` is false when writing the payload raises. */
    method Acquire(p: nat, payloadOk: bool) returns (got: bool)
      requires Valid() && At(View(), p, Begin)
      modifies this
      ensures Valid() && origin == old(origin) && |procs| == |old(procs)|
      ensures got <==> payloadOk && MayBeTaken(old(lock), old(procs)[p].staleMinutes, old(clock))
      ensures procs[p] == old(procs)[p].(phase :=
                if !MayBeTaken(old(lock), old(procs)[p].staleMinutes, old(clock)) then Blocked
                else if payloadOk then Working else Dead)
      ensures lock == if MayBeTaken(old(lock), old(procs)[p].staleMinutes, old(clock))
                      then Some(LockFile(p, clock)) else old(lock)
      ensures clock == old(clock)
      ensures forall q :: 0 <= q < |procs| && q != p ==> procs[q] == old(procs)[q]
    {
      Do(Create(p));
      if procs[p].phase.Contended? {
        Do(Stat(p));
        if procs[p].phase.Blocked? {
          return false;
        }
        Do(UnlinkStale(p));
        Do(CreateAgain(p));
      }
      if procs[p].phase.Blocked? {
        return false;
      }
      Do(WritePayload(p, payloadOk));
      got := payloadOk;
    }

    /** The execute branch of main: the lock is released only when the worker returned. */
    method ExecuteWave(p: nat, payloadOk: bool, raised: bool) returns (r: WaveResult)
      requires Valid() && At(View(), p, Begin)
      modifies this
      ensures Valid() && origin == old(origin) && |procs| == |old(procs)| && clock == old(clock)
      ensures var free := MayBeTaken(old(lock), old(procs)[p].staleMinutes, old(clock));
              && (r == BlockedConcurrentWave <==> !free)
              && (r == Crashed <==> free && !payloadOk)
              && (r == Executed(true) <==> free && payloadOk && raised)
              && (r == Executed(false) <==> free && payloadOk && !raised)
      // a worker that raised leaves the lock file behind, one that returned removes it
      ensures r == Executed(true) || r == Crashed ==> lock == Some(LockFile(p, clock))
      ensures r == Executed(false) ==> lock.None?
      ensures r == BlockedConcurrentWave ==> lock == old(lock)
      ensures procs[p] == old(procs)[p].(phase :=
                match r
                case BlockedConcurrentWave => Blocked
                case Executed(retained) => if retained then Retained else Released
                case Crashed => Dead)
      ensures forall q :: 0 <= q < |procs| && q != p ==> procs[q] == old(procs)[q]
    {
      var got := Acquire(p, payloadOk);
      if !got {
        return if procs[p].phase.Blocked? then BlockedConcurrentWave else Crashed;
      }
      var releaseLock := false;
      Do(Work(p, raised));
      if !raised {
        releaseLock := true;
      }
      if releaseLock {
        Do(Release(p));
      }
      r := Executed(raised);
    }
  }
}
