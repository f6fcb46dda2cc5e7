/** The lazily created container pool as a transition system: any number of concurrent calls, one step at a time, in any
    order, with the container tool and the other workers free to do anything they can. */
module ContainerPool {
  import opened Options
  import opened Arithmetic
  import opened PoolNames

  // ---------------------------------------------------------------------------------------------
  // States and steps
  // ---------------------------------------------------------------------------------------------

  /** Where a call is. */
  datatype Pc =
    | AwaitTicketLock
    | ReadIndex
    | LoadCounter(idx: nat)
    | StoreCounter(idx: nat, loaded: nat)
    | ReleaseTicketLock(idx: nat)
    | CheckUnlocked(idx: nat)
    | AwaitCreateLock(idx: nat)
    | CheckLocked(idx: nat)
    | Create(idx: nat)
    | Setup(idx: nat)
    | ListAfterFailure(idx: nat)
    | ListAfterException(idx: nat)
    | ReleaseCreateLock(idx: nat, ok: bool)
    | AwaitPermit(idx: nat)
    | Running(idx: nat)
    | Finished(idx: nat)
    | NoContainer

  /** What a subprocess does: succeed, say that the name is taken, fail in another way, or raise, with the container made or
      not. */
  datatype Outcome = Succeeds | NameTaken | Fails | Raises(made: bool)

  datatype State = State(pool: nat, lock: Option<nat>, permits: nat, counter: nat, issued: seq<nat>,
                         created: set<nat>, existing: set<nat>, calls: seq<Pc>)

  datatype Action = Advance(call: nat, outcome: Outcome) | Appear(container: nat)

  function Initial(pool: nat, pid: nat, count: nat): State {
    State(pool, None, pool, pid, [], {}, {}, seq(count, i => AwaitTicketLock))
  }

  function At(s: State, t: nat, pc: Pc): State
    requires t < |s.calls|
  {
    s.(calls := s.calls[t := pc])
  }

  function Lock(s: State, t: nat, pc: Pc): Option<State>
    requires t < |s.calls|
  {
    if s.lock == None then Some(At(s, t, pc).(lock := Some(t))) else None
  }

  function Record(s: State, t: nat, idx: nat): State
    requires t < |s.calls|
  {
    At(s, t, ReleaseCreateLock(idx, true)).(created := s.created + {idx})
  }

  ghost function List(s: State, t: nat, idx: nat): State
    requires t < |s.calls|
  {
    if Listed(s.existing, idx) then Record(s, t, idx) else At(s, t, ReleaseCreateLock(idx, false))
  }

  /** One step of call t, or None when it cannot take that step now. */
  ghost function Step(s: State, t: nat, outcome: Outcome): Option<State>
    requires t < |s.calls| && s.pool > 0
  {
    match s.calls[t]
    case AwaitTicketLock => Lock(s, t, ReadIndex)
    case ReadIndex => Some(At(s, t, LoadCounter(s.counter % s.pool)))
    case LoadCounter(idx) => Some(At(s, t, StoreCounter(idx, s.counter)))
    case StoreCounter(idx, loaded) =>
      Some(At(s, t, ReleaseTicketLock(idx)).(counter := loaded + 1, issued := s.issued + [idx]))
    case ReleaseTicketLock(idx) => Some(At(s, t, CheckUnlocked(idx)).(lock := None))
    case CheckUnlocked(idx) => Some(At(s, t, if idx in s.created then AwaitPermit(idx) else AwaitCreateLock(idx)))
    case AwaitCreateLock(idx) => Lock(s, t, CheckLocked(idx))
    case CheckLocked(idx) => Some(At(s, t, if idx in s.created then ReleaseCreateLock(idx, true) else Create(idx)))
    case Create(idx) =>
      (match outcome
       case Succeeds =>
         if idx in s.existing then None else Some(At(s, t, Setup(idx)).(existing := s.existing + {idx}))
       case NameTaken => if idx in s.existing then Some(Record(s, t, idx)) else None
       case Fails => Some(At(s, t, ListAfterFailure(idx)))
       case Raises(made) =>
         Some(At(s, t, ListAfterException(idx)).(existing := if made then s.existing + {idx} else s.existing)))
    case Setup(idx) => Some(if outcome.Raises? then At(s, t, ListAfterException(idx)) else Record(s, t, idx))
    case ListAfterFailure(idx) => Some(if outcome.Raises? then At(s, t, ListAfterException(idx)) else List(s, t, idx))
    case ListAfterException(idx) =>
      Some(if outcome.Raises? then At(s, t, ReleaseCreateLock(idx, false)) else List(s, t, idx))
    case ReleaseCreateLock(idx, ok) => Some(At(s, t, if ok then AwaitPermit(idx) else NoContainer).(lock := None))
    case AwaitPermit(idx) => if s.permits > 0 then Some(At(s, t, Running(idx)).(permits := s.permits - 1)) else None
    case Running(idx) => Some(At(s, t, Finished(idx)).(permits := s.permits + 1))
    case Finished(_) => None
    case NoContainer => None
  }

  /** Either a call steps, or another worker makes a container of the pool. */
  ghost function Act(s: State, a: Action): Option<State>
    requires s.pool > 0
  {
    match a
    case Advance(t, outcome) => if t < |s.calls| then Step(s, t, outcome) else None
    case Appear(c) => if c < s.pool then Some(s.(existing := s.existing + {c})) else None
  }

  ghost function Run(s: State, actions: seq<Action>): (r: Option<State>)
    requires s.pool > 0
    ensures r.Some? ==> r.value.pool == s.pool && |r.value.calls| == |s.calls|
    decreases |actions|
  {
    if actions == [] then Some(s)
    else match Act(s, actions[0])
      case Some(next) => Run(next, actions[1..])
      case None => None
  }

  // ---------------------------------------------------------------------------------------------
  // The invariant
  // ---------------------------------------------------------------------------------------------

  predicate HoldsLock(pc: Pc) {
    match pc
    case ReadIndex | LoadCounter(_) | StoreCounter(_, _) | ReleaseTicketLock(_) => true
    case CheckLocked(_) | Create(_) | Setup(_) | ListAfterFailure(_) | ListAfterException(_) => true
    case ReleaseCreateLock(_, _) => true
    case _ => false
  }

  predicate HasIndex(pc: Pc) {
    !pc.AwaitTicketLock? && !pc.ReadIndex? && !pc.NoContainer?
  }

  /** The calls that go by the container being created. */
  predicate Vouched(pc: Pc) {
    pc.AwaitPermit? || pc.Running? || pc.Finished? || (pc.ReleaseCreateLock? && pc.ok)
  }

  function SumOver(calls: seq<Pc>, weight: Pc -> nat): nat {
    if calls == [] then 0 else weight(calls[0]) + SumOver(calls[1..], weight)
  }

  function IsRunning(pc: Pc): nat {
    if pc.Running? then 1 else 0
  }

  ghost predicate LockOwned(s: State) {
    forall t :: 0 <= t < |s.calls| ==> (HoldsLock(s.calls[t]) <==> s.lock == Some(t))
  }

  ghost predicate PermitsCounted(s: State) {
    s.permits + SumOver(s.calls, IsRunning) == s.pool
  }

  /** A call between reading and storing the counter has read what it is now. */
  predicate LoadsCounter(pc: Pc, counter: nat, pool: nat)
    requires pool > 0
  {
    (pc.LoadCounter? || pc.StoreCounter? ==> pc.idx == counter % pool) && (pc.StoreCounter? ==> pc.loaded == counter)
  }

  ghost predicate TicketsInOrder(s: State, pid: nat)
    requires s.pool > 0
  {
    && s.counter == pid + |s.issued|
    && (forall k :: 0 <= k < |s.issued| ==> s.issued[k] == (pid + k) % s.pool)
    && (forall t :: 0 <= t < |s.calls| ==> LoadsCounter(s.calls[t], s.counter, s.pool))
  }

  ghost predicate IndexesInPool(s: State) {
    && (forall t :: 0 <= t < |s.calls| && HasIndex(s.calls[t]) ==> s.calls[t].idx < s.pool)
    && (forall e | e in s.existing :: e < s.pool)
  }

  ghost predicate VouchedAreCreated(s: State) {
    forall t :: 0 <= t < |s.calls| && Vouched(s.calls[t]) ==> s.calls[t].idx in s.created
  }

  ghost predicate Inv(s: State, pid: nat) {
    s.pool > 0 && LockOwned(s) && PermitsCounted(s) && TicketsInOrder(s, pid) && IndexesInPool(s) && VouchedAreCreated(s)
  }

  lemma {:induction false} SumOverUpdate(calls: seq<Pc>, weight: Pc -> nat, t: nat, pc: Pc)
    requires t < |calls|
    ensures SumOver(calls[t := pc], weight) + weight(calls[t]) == SumOver(calls, weight) + weight(pc)
  {
    if t == 0 {
      assert calls[t := pc][1..] == calls[1..];
    } else {
      assert calls[t := pc][1..] == calls[1..][t - 1 := pc];
      SumOverUpdate(calls[1..], weight, t - 1, pc);
    }
  }

  lemma {:induction false} InitialSums(calls: seq<Pc>)
    requires forall t :: 0 <= t < |calls| ==> calls[t] == AwaitTicketLock
    ensures SumOver(calls, IsRunning) == 0 && SumOver(calls, Rank) == 14 * |calls|
  {
    if calls != [] {
      InitialSums(calls[1..]);
    }
  }

  /** A step of one call leaves the others where they are. */
  lemma StepMovesOne(s: State, t: nat, outcome: Outcome)
    requires s.pool > 0 && t < |s.calls| && Step(s, t, outcome).Some?
    ensures var next := Step(s, t, outcome).value;
            next.pool == s.pool && |next.calls| == |s.calls| && next.calls == s.calls[t := next.calls[t]]
  {
  }

  lemma StepKeepsLock(s: State, pid: nat, t: nat, outcome: Outcome)
    requires Inv(s, pid) && t < |s.calls| && Step(s, t, outcome).Some?
    ensures LockOwned(Step(s, t, outcome).value)
  {
    StepMovesOne(s, t, outcome);
    LockStep(s, t, outcome);
    LockStaysOwned(s, t, Step(s, t, outcome).value);
  }

  /** A step leaves the lock alone, takes it when it is free, or gives it back. */
  ghost predicate MovesLock(s: State, t: nat, next: State)
    requires t < |s.calls| == |next.calls|
  {
    var before, after := HoldsLock(s.calls[t]), HoldsLock(next.calls[t]);
    || (next.lock == s.lock && before == after)
    || (s.lock == None && next.lock == Some(t) && after)
    || (before && next.lock == None && !after)
  }

  lemma LockStep(s: State, t: nat, outcome: Outcome)
    requires s.pool > 0 && t < |s.calls| && Step(s, t, outcome).Some?
    ensures |Step(s, t, outcome).value.calls| == |s.calls| && MovesLock(s, t, Step(s, t, outcome).value)
  {
  }

  lemma LockStaysOwned(s: State, t: nat, next: State)
    requires LockOwned(s) && t < |s.calls| == |next.calls| && next.calls == s.calls[t := next.calls[t]]
    requires MovesLock(s, t, next)
    ensures LockOwned(next)
  {
    assert HoldsLock(s.calls[t]) <==> s.lock == Some(t);
  }

  lemma StepMovesPermit(s: State, t: nat, outcome: Outcome)
    requires s.pool > 0 && t < |s.calls| && Step(s, t, outcome).Some?
    ensures var next := Step(s, t, outcome).value;
            |next.calls| == |s.calls| && next.permits + IsRunning(next.calls[t]) == s.permits + IsRunning(s.calls[t])
  {
  }

  lemma StepKeepsPermits(s: State, pid: nat, t: nat, outcome: Outcome)
    requires Inv(s, pid) && t < |s.calls| && Step(s, t, outcome).Some?
    ensures PermitsCounted(Step(s, t, outcome).value)
  {
    StepMovesOne(s, t, outcome);
    StepMovesPermit(s, t, outcome);
    SumOverUpdate(s.calls, IsRunning, t, Step(s, t, outcome).value.calls[t]);
  }

  lemma StepKeepsIssued(s: State, pid: nat, t: nat, outcome: Outcome)
    requires Inv(s, pid) && t < |s.calls| && Step(s, t, outcome).Some?
    ensures var next := Step(s, t, outcome).value;
            && next.counter == pid + |next.issued|
            && forall k :: 0 <= k < |next.issued| ==> next.issued[k] == (pid + k) % next.pool
  {
    StepMovesOne(s, t, outcome);
  }

  lemma StepKeepsLoads(s: State, pid: nat, t: nat, outcome: Outcome, u: nat)
    requires Inv(s, pid) && t < |s.calls| && Step(s, t, outcome).Some? && u < |s.calls|
    ensures var next := Step(s, t, outcome).value;
            |next.calls| == |s.calls| && next.pool == s.pool && LoadsCounter(next.calls[u], next.counter, next.pool)
  {
    StepMovesOne(s, t, outcome);
    if u != t && (s.calls[u].LoadCounter? || s.calls[u].StoreCounter?) {
      assert !HoldsLock(s.calls[t]);
    }
  }

  lemma StepKeepsTickets(s: State, pid: nat, t: nat, outcome: Outcome)
    requires Inv(s, pid) && t < |s.calls| && Step(s, t, outcome).Some?
    ensures TicketsInOrder(Step(s, t, outcome).value, pid)
  {
    StepMovesOne(s, t, outcome);
    StepKeepsIssued(s, pid, t, outcome);
    forall u | 0 <= u < |s.calls|
      ensures LoadsCounter(Step(s, t, outcome).value.calls[u], Step(s, t, outcome).value.counter, s.pool)
    {
      StepKeepsLoads(s, pid, t, outcome, u);
    }
  }

  lemma StepKeepsIndexes(s: State, pid: nat, t: nat, outcome: Outcome)
    requires Inv(s, pid) && t < |s.calls| && Step(s, t, outcome).Some?
    ensures IndexesInPool(Step(s, t, outcome).value)
  {
    StepMovesOne(s, t, outcome);
  }

  lemma StepKeepsVouched(s: State, pid: nat, t: nat, outcome: Outcome)
    requires Inv(s, pid) && t < |s.calls| && Step(s, t, outcome).Some?
    ensures VouchedAreCreated(Step(s, t, outcome).value)
  {
    StepMovesOne(s, t, outcome);
  }

  lemma ActKeepsInv(s: State, pid: nat, a: Action)
    requires Inv(s, pid) && Act(s, a).Some?
    ensures Inv(Act(s, a).value, pid)
  {
    if a.Advance? {
      StepKeepsLock(s, pid, a.call, a.outcome);
      StepKeepsPermits(s, pid, a.call, a.outcome);
      StepKeepsTickets(s, pid, a.call, a.outcome);
      StepKeepsIndexes(s, pid, a.call, a.outcome);
      StepKeepsVouched(s, pid, a.call, a.outcome);
    }
  }

  lemma {:induction false} RunKeepsInv(s: State, pid: nat, actions: seq<Action>)
    requires Inv(s, pid) && Run(s, actions).Some?
    ensures Inv(Run(s, actions).value, pid)
    decreases |actions|
  {
    if actions != [] {
      ActKeepsInv(s, pid, actions[0]);
      RunKeepsInv(Act(s, actions[0]).value, pid, actions[1..]);
    }
  }

  ghost predicate Reaches(pool: nat, pid: nat, count: nat, actions: seq<Action>, s: State)
    requires pool > 0
  {
    Run(Initial(pool, pid, count), actions) == Some(s)
  }

  lemma ReachableInv(pool: nat, pid: nat, count: nat, actions: seq<Action>, s: State)
    requires pool > 0 && Reaches(pool, pid, count, actions, s)
    ensures Inv(s, pid)
  {
    InitialSums(Initial(pool, pid, count).calls);
    RunKeepsInv(Initial(pool, pid, count), pid, actions);
  }

  // ---------------------------------------------------------------------------------------------
  // Safety
  // ---------------------------------------------------------------------------------------------

  lemma {:induction false} CountedAtLeast(calls: seq<Pc>, running: set<nat>)
    requires forall t | t in running :: t < |calls| && calls[t].Running?
    ensures |running| <= SumOver(calls, IsRunning)
    decreases |calls|
  {
    if calls == [] {
      assert forall t :: t !in running;
      assert running == {};
    } else {
      var last := |calls| - 1;
      var init := calls[..last];
      assert calls == init + [calls[last]];
      SumOverSnoc(init, calls[last]);
      CountedAtLeast(init, running - {last});
      if last in running {
        assert |running| == |running - {last}| + 1;
      } else {
        assert running - {last} == running;
      }
    }
  }

  lemma {:induction false} SumOverSnoc(calls: seq<Pc>, pc: Pc)
    ensures SumOver(calls + [pc], IsRunning) == SumOver(calls, IsRunning) + IsRunning(pc)
  {
    if calls == [] {
      assert calls + [pc] == [pc] && [pc][1..] == [];
    } else {
      assert (calls + [pc])[1..] == calls[1..] + [pc];
      SumOverSnoc(calls[1..], pc);
    }
  }

  /** In every interleaving: at most `pool` executions at once, at most one call inside the lock, no call with both, and
      every call that has a container has one of the created ones. */
  lemma PoolIsSafe(pool: nat, pid: nat, count: nat, actions: seq<Action>, s: State, running: set<nat>)
    requires pool > 0 && Reaches(pool, pid, count, actions, s)
    requires forall t | t in running :: t < |s.calls| && s.calls[t].Running?
    ensures |running| <= pool
    ensures forall t, u | 0 <= t < |s.calls| && 0 <= u < |s.calls| && HoldsLock(s.calls[t]) && HoldsLock(s.calls[u]) ::
        t == u && t !in running
    ensures forall t | 0 <= t < |s.calls| && (s.calls[t].Running? || s.calls[t].Finished?) :: s.calls[t].idx in s.created
  {
    ReachableInv(pool, pid, count, actions, s);
    CountedAtLeast(s.calls, running);
  }

  /** No ticket is lost or doubled: the k-th call to take one gets container (pid + k) mod pool, so each container is given
      out exactly once in every `pool` consecutive tickets. */
  lemma TicketsGoRound(pool: nat, pid: nat, count: nat, actions: seq<Action>, s: State, start: nat, idx: nat) returns (k: nat)
    requires pool > 0 && Reaches(pool, pid, count, actions, s)
    requires start + pool <= |s.issued| && idx < pool
    ensures start <= k < start + pool && s.issued[k] == idx
    ensures forall j | start <= j < start + pool && s.issued[j] == idx :: j == k
  {
    ReachableInv(pool, pid, count, actions, s);
    var at := (pid + start) % pool;
    var d := if idx >= at then idx - at else idx - at + pool;
    k := start + d;
    OffsetRemainder(pid + start, d, pool);
    forall j | start <= j < start + pool && s.issued[j] == idx
      ensures j == k
    {
      OffsetRemainder(pid + start, j - start, pool);
    }
  }

  lemma OffsetRemainder(x: nat, d: nat, n: nat)
    requires d < n
    ensures (x + d) % n == if x % n + d < n then x % n + d else x % n + d - n
  {
    var q, r := Quotient(x, n), x % n;
    assert x == q * n + r;
    if r + d < n {
      QuotientIsUnique(x + d, n, q, r + d);
    } else {
      assert (q + 1) * n == q * n + n;
      QuotientIsUnique(x + d, n, q + 1, r + d - n);
    }
  }

  lemma StepOnlyAdds(s: State, a: Action)
    requires s.pool > 0 && Act(s, a).Some?
    ensures s.created <= Act(s, a).value.created && s.existing <= Act(s, a).value.existing
    ensures s.issued <= Act(s, a).value.issued
  {
  }

  /** Along every run the created set, the existing containers and the issued tickets only grow: a call that saw a container
      as created without the lock still finds it so. */
  lemma {:induction false} RunsOnlyAdd(s: State, actions: seq<Action>)
    requires s.pool > 0 && Run(s, actions).Some?
    ensures var end := Run(s, actions).value;
            s.created <= end.created && s.existing <= end.existing && s.issued <= end.issued
    decreases |actions|
  {
    if actions != [] {
      StepOnlyAdds(s, actions[0]);
      RunsOnlyAdd(Act(s, actions[0]).value, actions[1..]);
    }
  }

  // ---------------------------------------------------------------------------------------------
  // Progress
  // ---------------------------------------------------------------------------------------------

  predicate Done(pc: Pc) {
    pc.Finished? || pc.NoContainer?
  }

  ghost predicate CanStep(s: State, t: nat)
    requires s.pool > 0
  {
    t < |s.calls| && Step(s, t, Fails).Some?
  }

  lemma {:induction false} SomeRunning(calls: seq<Pc>) returns (t: nat)
    requires SumOver(calls, IsRunning) > 0
    ensures t < |calls| && calls[t].Running?
  {
    if calls[0].Running? {
      t := 0;
    } else {
      var u := SomeRunning(calls[1..]);
      t := u + 1;
    }
  }

  /** As long as some call is unfinished, some call can step, even if every subprocess fails. */
  lemma NeverStuck(pool: nat, pid: nat, count: nat, actions: seq<Action>, s: State, unfinished: nat) returns (t: nat)
    requires pool > 0 && Reaches(pool, pid, count, actions, s)
    requires unfinished < |s.calls| && !Done(s.calls[unfinished])
    ensures t < |s.calls| && CanStep(s, t) && !Done(s.calls[t])
  {
    ReachableInv(pool, pid, count, actions, s);
    if CanStep(s, unfinished) {
      t := unfinished;
    } else if s.calls[unfinished].AwaitPermit? {
      t := SomeRunning(s.calls);
    } else {
      assert s.lock.Some?;
      LockHolderExists(pool, pid, count, actions, s);
      t := s.lock.value;
    }
  }

  ghost predicate LockInRange(s: State) {
    s.lock.Some? ==> s.lock.value < |s.calls|
  }

  lemma {:induction false} RunKeepsLockInRange(s: State, actions: seq<Action>)
    requires s.pool > 0 && LockInRange(s) && Run(s, actions).Some?
    ensures LockInRange(Run(s, actions).value)
    decreases |actions|
  {
    if actions != [] {
      RunKeepsLockInRange(Act(s, actions[0]).value, actions[1..]);
    }
  }

  lemma LockHolderExists(pool: nat, pid: nat, count: nat, actions: seq<Action>, s: State)
    requires pool > 0 && Reaches(pool, pid, count, actions, s)
    ensures LockInRange(s)
  {
    RunKeepsLockInRange(Initial(pool, pid, count), actions);
  }

  /** How many steps a call can still take at most. */
  function Rank(pc: Pc): nat {
    match pc
    case AwaitTicketLock => 14
    case ReadIndex => 13
    case LoadCounter(_) => 12
    case StoreCounter(_, _) => 11
    case ReleaseTicketLock(_) => 10
    case CheckUnlocked(_) => 9
    case AwaitCreateLock(_) => 8
    case CheckLocked(_) => 7
    case Create(_) => 6
    case Setup(_) => 5
    case ListAfterFailure(_) => 5
    case ListAfterException(_) => 4
    case ReleaseCreateLock(_, _) => 3
    case AwaitPermit(_) => 2
    case Running(_) => 1
    case Finished(_) => 0
    case NoContainer => 0
  }

  function CallSteps(actions: seq<Action>): nat {
    if actions == [] then 0 else (if actions[0].Advance? then 1 else 0) + CallSteps(actions[1..])
  }

  lemma StepLowersRank(s: State, t: nat, outcome: Outcome)
    requires s.pool > 0 && t < |s.calls| && Step(s, t, outcome).Some?
    ensures SumOver(Step(s, t, outcome).value.calls, Rank) < SumOver(s.calls, Rank)
  {
    var next := Step(s, t, outcome).value;
    StepMovesOne(s, t, outcome);
    assert Rank(next.calls[t]) < Rank(s.calls[t]);
    SumOverUpdate(s.calls, Rank, t, next.calls[t]);
  }

  lemma {:induction false} EveryStepCounts(s: State, actions: seq<Action>)
    requires s.pool > 0 && Run(s, actions).Some?
    ensures CallSteps(actions) + SumOver(Run(s, actions).value.calls, Rank) <= SumOver(s.calls, Rank)
    decreases |actions|
  {
    if actions != [] {
      var next := Act(s, actions[0]).value;
      if actions[0].Advance? {
        StepLowersRank(s, actions[0].call, actions[0].outcome);
      }
      EveryStepCounts(next, actions[1..]);
    }
  }

  /** No run goes on forever: whatever the scheduler does, the calls take at most 14 steps each. With NeverStuck, every run
      that cannot be extended has finished all calls. */
  lemma RunsAreBounded(pool: nat, pid: nat, count: nat, actions: seq<Action>, s: State)
    requires pool > 0 && Reaches(pool, pid, count, actions, s)
    ensures CallSteps(actions) <= 14 * count
  {
    InitialSums(Initial(pool, pid, count).calls);
    EveryStepCounts(Initial(pool, pid, count), actions);
  }

  // ---------------------------------------------------------------------------------------------
  // Do the created containers exist?
  // ---------------------------------------------------------------------------------------------

  /** In every run, once the index is recorded as created, its container exists. */
  ghost predicate SafeIndex(pool: nat, index: nat)
    requires pool > 0
  {
    forall pid, count, actions, s | Reaches(pool, pid, count, actions, s) :: index in s.created ==> index in s.existing
  }

  ghost predicate AllListed(s: State) {
    forall i | i in s.created :: Listed(s.existing, i)
  }

  ghost predicate SetupExists(s: State) {
    forall t :: 0 <= t < |s.calls| && s.calls[t].Setup? ==> s.calls[t].idx in s.existing
  }

  lemma StepKeepsListed(s: State, t: nat, outcome: Outcome)
    requires s.pool > 0 && t < |s.calls| && AllListed(s) && SetupExists(s) && Step(s, t, outcome).Some?
    ensures AllListed(Step(s, t, outcome).value)
  {
    var next := Step(s, t, outcome).value;
    StepOnlyAdds(s, Advance(t, outcome));
    forall i | i in next.created
      ensures Listed(next.existing, i)
    {
      if i in s.created {
        ListingGrows(s.existing, next.existing, i);
      } else if i in s.existing {
        ExistingIsListed(next.existing, i);
      }
    }
  }

  lemma StepKeepsSetup(s: State, t: nat, outcome: Outcome)
    requires s.pool > 0 && t < |s.calls| && SetupExists(s) && Step(s, t, outcome).Some?
    ensures SetupExists(Step(s, t, outcome).value)
  {
    StepMovesOne(s, t, outcome);
    StepOnlyAdds(s, Advance(t, outcome));
  }

  lemma {:induction false} RunKeepsListed(s: State, actions: seq<Action>)
    requires s.pool > 0 && AllListed(s) && SetupExists(s) && Run(s, actions).Some?
    ensures AllListed(Run(s, actions).value)
    decreases |actions|
  {
    if actions != [] {
      var a, next := actions[0], Act(s, actions[0]).value;
      StepOnlyAdds(s, a);
      if a.Advance? {
        StepKeepsListed(s, a.call, a.outcome);
        StepKeepsSetup(s, a.call, a.outcome);
      } else {
        forall i | i in next.created
          ensures Listed(next.existing, i)
        {
          ListingGrows(s.existing, next.existing, i);
        }
      }
      RunKeepsListed(next, actions[1..]);
    }
  }

  /** For pools of any size: a created index exists, or an existing one at least ten times as large vouched for it. */
  lemma CreatedIsListed(pool: nat, pid: nat, count: nat, actions: seq<Action>, s: State, index: nat) returns (e: nat)
    requires pool > 0 && Reaches(pool, pid, count, actions, s) && index in s.created
    ensures e in s.existing && e < pool && (e == index || (index > 0 && 10 * index <= e))
  {
    RunKeepsListed(Initial(pool, pid, count), actions);
    ReachableInv(pool, pid, count, actions, s);
    e := ListedIndex(s.existing, index);
  }

  ghost predicate IsPath(states: seq<State>, actions: seq<Action>) {
    && |states| == |actions| + 1
    && forall i :: 0 <= i < |actions| ==> states[i].pool > 0 && Act(states[i], actions[i]) == Some(states[i + 1])
  }

  lemma {:induction false} PathIsRun(states: seq<State>, actions: seq<Action>)
    requires IsPath(states, actions) && states[0].pool > 0
    ensures Run(states[0], actions) == Some(states[|actions|])
    decreases |actions|
  {
    if actions != [] {
      assert Act(states[0], actions[0]) == Some(states[0 + 1]);
      PathIsRun(states[1..], actions[1..]);
    }
  }

  /** One call at pc, in a pool where another worker has made container 10 * index. */
  function Alone(pool: nat, index: nat, lock: Option<nat>, counter: nat, issued: seq<nat>, created: set<nat>, pc: Pc): State {
    State(pool, lock, pool, counter, issued, created, {10 * index}, [pc])
  }

  lemma TakesTicket(pool: nat, index: nat) returns (states: seq<State>, actions: seq<Action>)
    requires index < pool
    ensures IsPath(states, actions) && |actions| == 5
    ensures states[0] == Alone(pool, index, None, index, [], {}, AwaitTicketLock)
    ensures states[5] == Alone(pool, index, None, index + 1, [index], {}, CheckUnlocked(index))
  {
    RemainderOfSmall(index, pool);
    assert forall x: Pc, y: Pc :: [x][0 := y] == [y];
    var go := Advance(0, Fails);
    actions := [go, go, go, go, go];
    states := [Alone(pool, index, None, index, [], {}, AwaitTicketLock),
               Alone(pool, index, Some(0), index, [], {}, ReadIndex),
               Alone(pool, index, Some(0), index, [], {}, LoadCounter(index)),
               Alone(pool, index, Some(0), index, [], {}, StoreCounter(index, index)),
               Alone(pool, index, Some(0), index + 1, [index], {}, ReleaseTicketLock(index)),
               Alone(pool, index, None, index + 1, [index], {}, CheckUnlocked(index))];
    assert states[3].issued + [index] == [index];
    assert Act(states[0], go) == Some(states[1]) && Act(states[1], go) == Some(states[2]);
    assert Act(states[2], go) == Some(states[3]) && Act(states[3], go) == Some(states[4]);
    assert Act(states[4], go) == Some(states[5]);
  }

  lemma ListingVouches(pool: nat, index: nat)
    requires 0 < index < pool
    ensures Act(Alone(pool, index, Some(0), index + 1, [index], {}, ListAfterFailure(index)), Advance(0, Fails))
         == Some(Alone(pool, index, Some(0), index + 1, [index], {index}, ReleaseCreateLock(index, true)))
  {
    ListedWithTenfold(index);
    var s := Alone(pool, index, Some(0), index + 1, [index], {}, ListAfterFailure(index));
    assert s.created + {index} == {index};
    assert s.calls[0 := ReleaseCreateLock(index, true)] == [ReleaseCreateLock(index, true)];
  }

  lemma MistakesTheTenfold(pool: nat, index: nat) returns (states: seq<State>, actions: seq<Action>)
    requires 0 < index < pool
    ensures IsPath(states, actions) && |actions| == 5
    ensures states[0] == Alone(pool, index, None, index + 1, [index], {}, CheckUnlocked(index))
    ensures states[5] == Alone(pool, index, Some(0), index + 1, [index], {index}, ReleaseCreateLock(index, true))
  {
    ListingVouches(pool, index);
    assert forall x: Pc, y: Pc :: [x][0 := y] == [y];
    var go := Advance(0, Fails);
    actions := [go, go, go, go, go];
    states := [Alone(pool, index, None, index + 1, [index], {}, CheckUnlocked(index)),
               Alone(pool, index, None, index + 1, [index], {}, AwaitCreateLock(index)),
               Alone(pool, index, Some(0), index + 1, [index], {}, CheckLocked(index)),
               Alone(pool, index, Some(0), index + 1, [index], {}, Create(index)),
               Alone(pool, index, Some(0), index + 1, [index], {}, ListAfterFailure(index)),
               Alone(pool, index, Some(0), index + 1, [index], {index}, ReleaseCreateLock(index, true))];
    assert Act(states[0], go) == Some(states[1]) && Act(states[1], go) == Some(states[2]);
    assert Act(states[2], go) == Some(states[3]) && Act(states[3], go) == Some(states[4]);
    assert Act(states[4], go) == Some(states[5]);
  }

  /** Another worker has made container 10 * index, creating container index fails, and in the listing the name of the former
      is taken for that of the latter: with ten times 1, "...-10" for "...-1". */
  lemma TenfoldIsMistaken(pool: nat, index: nat) returns (actions: seq<Action>, s: State)
    requires 0 < index && 10 * index < pool
    ensures Reaches(pool, index, 1, actions, s) && s.created == {index} && s.existing == {10 * index}
  {
    var before, ticket := TakesTicket(pool, index);
    var after, mistake := MistakesTheTenfold(pool, index);
    s := after[5];
    PathIsRun(before, ticket);
    PathIsRun(after, mistake);
    RunAppend(before[0], ticket, mistake);
    var appear := Appear(10 * index);
    actions := [appear] + (ticket + mistake);
    assert Initial(pool, index, 1).calls == [AwaitTicketLock];
    assert Initial(pool, index, 1).existing + {10 * index} == {10 * index};
    assert Act(Initial(pool, index, 1), appear) == Some(before[0]);
    assert actions[1..] == ticket + mistake;
  }

  lemma {:induction false} RunAppend(s: State, first: seq<Action>, second: seq<Action>)
    requires s.pool > 0 && Run(s, first).Some?
    ensures Run(s, first + second) == Run(Run(s, first).value, second)
    decreases |first|
  {
    if first == [] {
      assert first + second == second;
    } else {
      assert (first + second)[1..] == first[1..] + second;
      RunAppend(Act(s, first[0]).value, first[1..], second);
    }
  }

  /** Which indexes are safe, in a pool of any size: zero, and those whose tenfold is no index of the pool. */
  lemma SafeIndexIff(pool: nat, index: nat)
    requires index < pool
    ensures SafeIndex(pool, index) <==> index == 0 || pool <= 10 * index
  {
    if index == 0 || pool <= 10 * index {
      forall pid, count, actions, s | Reaches(pool, pid, count, actions, s)
        ensures index in s.created ==> index in s.existing
      {
        if index in s.created {
          var e := CreatedIsListed(pool, pid, count, actions, s, index);
        }
      }
    } else {
      var actions, s := TenfoldIsMistaken(pool, index);
      assert index in s.created && index !in s.existing;
    }
  }

  ghost predicate SafeNames(pool: nat)
    requires pool > 0
  {
    forall pid, count, actions, s | Reaches(pool, pid, count, actions, s) :: s.created <= s.existing
  }

  /** All created names are existing containers, in every run, exactly when the pool has at most ten containers: then no name
      of the pool is part of another. */
  lemma CreatedNamesExistIff(pool: nat)
    requires pool > 0
    ensures SafeNames(pool) <==> pool <= 10
  {
    if pool <= 10 {
      forall pid, count, actions, s | Reaches(pool, pid, count, actions, s)
        ensures s.created <= s.existing
      {
        forall i | i in s.created
          ensures i in s.existing
        {
          var e := CreatedIsListed(pool, pid, count, actions, s, i);
        }
      }
    } else {
      var actions, s := TenfoldIsMistaken(pool, 1);
      assert 1 in s.created && 1 !in s.existing;
    }
  }

  /** In a pool of any size, a call whose index is safe runs in an existing container. */
  lemma RunningContainersExist(pool: nat, pid: nat, count: nat, actions: seq<Action>, s: State, t: nat)
    requires pool > 0 && Reaches(pool, pid, count, actions, s)
    requires t < |s.calls| && (s.calls[t].Running? || s.calls[t].Finished?)
    requires s.calls[t].idx == 0 || pool <= 10 * s.calls[t].idx
    ensures s.calls[t].idx in s.existing
  {
    PoolIsSafe(pool, pid, count, actions, s, {});
    var e := CreatedIsListed(pool, pid, count, actions, s, s.calls[t].idx);
  }
}
