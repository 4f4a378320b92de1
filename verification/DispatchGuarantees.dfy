/** What holds of every operation, and of every chain of retries, under any crashes. */
module DispatchGuarantees {
  import opened Wrappers
  import opened DispatchRules
  import opened DispatchRuns

  function Initial(workers: nat): World {
    World(map[], {}, seq(workers, _ => Idle))
  }

  function Run(w: World, steps: seq<Step>): World
    decreases |steps|
  {
    if steps == [] then w else Run(Next(w, steps[0]), steps[1..])
  }

  lemma InitialInvariant(workers: nat)
    ensures Invariant(Initial(workers))
  {
  }

  lemma {:induction false} RunKeepsInvariant(w: World, steps: seq<Step>)
    requires Invariant(w)
    ensures Invariant(Run(w, steps))
    decreases |steps|
  {
    hide Invariant, Next;
    if steps != [] {
      StepKeepsInvariant(w, steps[0]);
      RunKeepsInvariant(Next(w, steps[0]), steps[1..]);
    }
  }

  /******* One operation *******/

  /** However its workers crash and compete, an operation launches its producer at most once, and
      its history, once begun, is one of the four legal ones, which every reader accepts. One that
      ends without a launch failed or was cancelled. */
  lemma OperationIsLegal(workers: nat, steps: seq<Step>, op: Id)
    requires op in Run(Initial(workers), steps).ops
    ensures var d := Run(Initial(workers), steps).ops[op];
            && d.launches <= 1
            && (d.events == [] ==> d.launches == 0)
            && (d.events != [] ==> Legal(d.events) && StatusOf(d) == Some(d.events[|d.events| - 1]))
            && (|d.events| == 3 ==> EndFits(d.events[2], d.launches))
  {
    InitialInvariant(workers);
    RunKeepsInvariant(Initial(workers), steps);
    assert DirectoryOk(op, Run(Initial(workers), steps).ops[op]);
    hide Invariant, Run;
  }

  /** Nothing durable is lost or rewritten. */
  ghost predicate Durable(ops: map<Id, Directory>, ops': map<Id, Directory>) {
    forall id :: id in ops ==>
      && id in ops' && ops[id].events <= ops'[id].events && ops[id].launches <= ops'[id].launches
      && (ops[id].plan.Some? ==> ops'[id].plan == ops[id].plan)
      && (ops[id].retry.Some? ==> ops'[id].retry == ops[id].retry)
  }

  lemma PrepareIsDurable(w: World, s: Step)
    requires Invariant(w) && s.t < |w.workers| && w.workers[s.t].Preparing?
    ensures Durable(w.ops, PrepareStep(w, s).ops)
  {
    assert WorkerOk(w.ops, w.used, w.workers[s.t]);
    hide Invariant, WorkerOk;
  }

  lemma LockedIsDurable(w: World, s: Step)
    requires s.t < |w.workers| && LockOf(w.workers[s.t]).Some? && !w.workers[s.t].Preparing?
    ensures Durable(w.ops, LockedStep(w, s).ops)
  {
  }

  lemma StepIsDurable(w: World, s: Step)
    requires Invariant(w)
    ensures Durable(w.ops, Next(w, s).ops)
  {
    hide Invariant, PrepareStep, LockedStep, CanLock;
    if s.t < |w.workers| {
      if w.workers[s.t].Preparing? {
        PrepareIsDurable(w, s);
      } else if !w.workers[s.t].Idle? {
        LockedIsDurable(w, s);
      }
    }
  }

  lemma {:induction false} RunIsDurable(w: World, steps: seq<Step>)
    requires Invariant(w)
    ensures Durable(w.ops, Run(w, steps).ops)
    decreases |steps|
  {
    hide Invariant, Next;
    if steps != [] {
      StepKeepsInvariant(w, steps[0]);
      StepIsDurable(w, steps[0]);
      RunIsDurable(Next(w, steps[0]), steps[1..]);
    }
  }

  /** An operation that nobody is running any more. */
  ghost predicate Abandoned(w: World, op: Id) {
    && op in w.ops && |w.ops[op].events| == 2 && w.ops[op].events[1].state == RUNNING
    && forall t :: 0 <= t < |w.workers| ==> !AtWork(w.workers[t], op)
  }

  predicate AtWork(worker: Worker, op: Id) {
    (worker.Started? || worker.Launched?) && worker.op == op
  }

  lemma PreparersLeaveAbandoned(w: World, op: Id, s: Step)
    requires Invariant(w) && Abandoned(w, op) && s.t < |w.workers| && w.workers[s.t].Preparing?
    ensures op in PrepareStep(w, s).ops && PrepareStep(w, s).ops[op] == w.ops[op]
    ensures !AtWork(PrepareStep(w, s).workers[s.t], op)
  {
    assert WorkerOk(w.ops, w.used, w.workers[s.t]);
    hide Invariant;
  }

  lemma HoldersLeaveAbandoned(w: World, op: Id, s: Step)
    requires Invariant(w) && Abandoned(w, op)
    requires s.t < |w.workers| && LockOf(w.workers[s.t]).Some? && !w.workers[s.t].Preparing?
    ensures op in LockedStep(w, s).ops && LockedStep(w, s).ops[op] == w.ops[op]
    ensures !AtWork(LockedStep(w, s).workers[s.t], op)
  {
    assert WorkerOk(w.ops, w.used, w.workers[s.t]) && !AtWork(w.workers[s.t], op);
    assert DirectoryOk(op, w.ops[op]);
    hide Invariant;
  }

  lemma OthersStay(w: World, s: Step)
    ensures |Next(w, s).workers| == |w.workers|
    ensures forall t :: 0 <= t < |w.workers| && t != s.t ==> Next(w, s).workers[t] == w.workers[t]
  {
  }

  lemma StaysAbandoned(w: World, op: Id, s: Step)
    requires Invariant(w) && Abandoned(w, op)
    ensures Abandoned(Next(w, s), op) && Next(w, s).ops[op] == w.ops[op]
  {
    hide Invariant, PrepareStep, LockedStep, CanLock;
    OthersStay(w, s);
    if s.t < |w.workers| {
      if w.workers[s.t].Preparing? {
        PreparersLeaveAbandoned(w, op, s);
      } else if !w.workers[s.t].Idle? {
        HoldersLeaveAbandoned(w, op, s);
      }
      assert Next(w, s).ops[op] == w.ops[op] && !AtWork(Next(w, s).workers[s.t], op);
      hide Next;
    }
  }

  /** After a crash while RUNNING an operation is left as it is: never launched again, never
      finished and never retried. */
  lemma {:induction false} AbandonedForever(w: World, op: Id, steps: seq<Step>)
    requires Invariant(w) && Abandoned(w, op)
    ensures Abandoned(Run(w, steps), op) && Run(w, steps).ops[op] == w.ops[op]
    ensures Run(w, steps).ops[op].retry.None?
    decreases |steps|
  {
    if steps == [] {
      assert DirectoryOk(op, w.ops[op]);
    } else {
      StepKeepsInvariant(w, steps[0]);
      StaysAbandoned(w, op, steps[0]);
      hide Invariant, Abandoned, Next;
      AbandonedForever(Next(w, steps[0]), op, steps[1..]);
    }
  }

  /******* Chains of retries *******/

  /** Each operation of the chain is a retry of the one before it, and the first of none. */
  ghost predicate Chain(ops: map<Id, Directory>, chain: seq<Id>) {
    && (forall k :: 0 <= k < |chain| ==> chain[k] in ops && ops[chain[k]].plan.Some?)
    && (chain != [] ==> ops[chain[0]].plan.value.retryOf.None? && ops[chain[0]].plan.value.attempt >= 1)
    && (forall k :: 0 < k < |chain| ==> ops[chain[k]].plan.value.retryOf == Some(chain[k - 1]))
  }

  /** A reservation that is read back always passes its checks, and the directory of a retry
      holds exactly the reserved plan. */
  lemma ReservationHolds(w: World, id: Id)
    requires Invariant(w) && id in w.ops && w.ops[id].plan.Some? && w.ops[id].plan.value.retryOf.Some?
    ensures var parent := w.ops[id].plan.value.retryOf.value;
            && parent in w.ops && w.ops[parent].retry == w.ops[id].plan && Retryable(w.ops[parent])
            && ReservationValid(w.ops[parent].plan.value, w.ops[parent].retry.value)
            && id != parent && var plan := w.ops[parent].plan.value;
               w.ops[id].plan.value == Plan(id, plan.attempt + 1, Some(parent), plan.inputs)
  {
    hide WorkersOk, Exclusive, FirstsUnreserved, AllUsed, ChildrenDiffer;
    var parent := w.ops[id].plan.value.retryOf.value;
    assert ReservedBy(w.ops, parent, w.ops[id].plan.value);
    assert DirectoryOk(parent, w.ops[parent]) && DirectoryOk(id, w.ops[id]);
  }

  /** An operation has at most one successor, whatever was repeated or interrupted. */
  lemma OneSuccessor(w: World, a: Id, b: Id)
    requires Invariant(w) && a in w.ops && b in w.ops && w.ops[a].plan.Some? && w.ops[b].plan.Some?
    requires w.ops[a].plan.value.retryOf.Some? && w.ops[a].plan.value.retryOf == w.ops[b].plan.value.retryOf
    ensures a == b
  {
    ReservationHolds(w, a);
    ReservationHolds(w, b);
    assert DirectoryOk(a, w.ops[a]) && DirectoryOk(b, w.ops[b]);
    hide Invariant;
  }

  lemma {:induction false} AttemptsCount(w: World, chain: seq<Id>, k: nat)
    requires Invariant(w) && Chain(w.ops, chain) && k < |chain|
    ensures w.ops[chain[k]].plan.value.attempt >= k + 1
  {
    if k > 0 {
      AttemptsCount(w, chain, k - 1);
      ReservationHolds(w, chain[k]);
      hide Invariant;
    }
  }

  /** At most three attempts; every one but the last ended short of admission and under control,
      so only the last may be unfinished, awaiting admission or out of control. */
  lemma LineageIsShort(w: World, chain: seq<Id>)
    requires Invariant(w) && Chain(w.ops, chain)
    ensures |chain| <= 3
    ensures forall k :: 0 <= k < |chain| - 1 ==> EndedShort(w.ops[chain[k]].events)
  {
    forall k | 0 <= k < |chain| - 1
      ensures EndedShort(w.ops[chain[k]].events)
    {
      assert w.ops[chain[k + 1]].plan.value.retryOf == Some(chain[k + 1 - 1]);
      ReservationHolds(w, chain[k + 1]);
      RetryableExactly(w.ops[chain[k]]);
    }
    if chain != [] {
      AttemptsCount(w, chain, |chain| - 1);
      assert DirectoryOk(chain[|chain| - 1], w.ops[chain[|chain| - 1]]);
    }
    hide Invariant;
  }

  /** Chains from one first attempt never fork: the shorter is the beginning of the longer. */
  lemma {:induction false} ChainsDoNotFork(w: World, some: seq<Id>, other: seq<Id>)
    requires Invariant(w) && Chain(w.ops, some) && Chain(w.ops, other)
    requires 0 < |some| <= |other| && some[0] == other[0]
    ensures some <= other
  {
    if |some| > 1 {
      var n := |some| - 1;
      ChainsDoNotFork(w, some[..n], other);
      assert some[..n][n - 1] == some[n - 1] == other[n - 1];
      OneSuccessor(w, some[n], other[n]);
    }
    hide Invariant;
  }

  function Launches(ops: map<Id, Directory>, chain: seq<Id>): nat
    requires forall k :: 0 <= k < |chain| ==> chain[k] in ops
  {
    if chain == [] then 0 else ops[chain[0]].launches + Launches(ops, chain[1..])
  }

  lemma {:induction false} LaunchesAtMostLength(w: World, chain: seq<Id>)
    requires Invariant(w) && forall k :: 0 <= k < |chain| ==> chain[k] in w.ops
    ensures Launches(w.ops, chain) <= |chain|
  {
    if chain != [] {
      assert DirectoryOk(chain[0], w.ops[chain[0]]);
      LaunchesAtMostLength(w, chain[1..]);
      hide Invariant;
    }
  }

  /** So a lineage launches its producer at most three times. */
  lemma ThreeLaunchesPerLineage(workers: nat, steps: seq<Step>, chain: seq<Id>)
    requires Chain(Run(Initial(workers), steps).ops, chain)
    ensures Launches(Run(Initial(workers), steps).ops, chain) <= 3
  {
    InitialInvariant(workers);
    RunKeepsInvariant(Initial(workers), steps);
    var w := Run(Initial(workers), steps);
    LineageIsShort(w, chain);
    LaunchesAtMostLength(w, chain);
    hide Invariant, Run;
  }

  /******* An interrupted materialization *******/

  /** The reserved successor has a directory, and nobody left to prepare it. */
  ghost predicate Interrupted(w: World, parent: Id, id: Id) {
    && parent in w.ops && w.ops[parent].retry.Some? && w.ops[parent].retry.value.operation == id
    && id in w.ops && w.ops[id].events == [] && NobodyPrepares(w.workers, id)
  }

  lemma PreparersLeaveSettled(w: World, op: Id, s: Step)
    requires Invariant(w) && op in w.ops && w.ops[op].retry.Some? && s.t < |w.workers| && w.workers[s.t].Preparing?
    ensures op in PrepareStep(w, s).ops && PrepareStep(w, s).ops[op] == w.ops[op]
  {
    assert WorkerOk(w.ops, w.used, w.workers[s.t]);
    assert DirectoryOk(op, w.ops[op]);
    hide Invariant, WorkerOk, ReservationValid;
  }

  lemma HoldersLeaveSettled(w: World, op: Id, s: Step)
    requires Invariant(w) && op in w.ops && w.ops[op].retry.Some?
    requires s.t < |w.workers| && LockOf(w.workers[s.t]).Some? && !w.workers[s.t].Preparing?
    ensures op in LockedStep(w, s).ops && LockedStep(w, s).ops[op] == w.ops[op]
  {
    assert WorkerOk(w.ops, w.used, w.workers[s.t]);
    assert DirectoryOk(op, w.ops[op]);
    hide Invariant, WorkerOk, ReservationValid, ChildPlan;
  }

  /** An operation that ended and has its successor reserved is written no more. */
  lemma SettledStays(w: World, op: Id, s: Step)
    requires Invariant(w) && op in w.ops && w.ops[op].retry.Some?
    ensures op in Next(w, s).ops && Next(w, s).ops[op] == w.ops[op]
  {
    hide Invariant, PrepareStep, LockedStep, CanLock;
    if s.t < |w.workers| {
      if w.workers[s.t].Preparing? {
        PreparersLeaveSettled(w, op, s);
      } else if !w.workers[s.t].Idle? {
        HoldersLeaveSettled(w, op, s);
      }
    }
  }

  lemma {:induction false} SettledForever(w: World, op: Id, steps: seq<Step>)
    requires Invariant(w) && op in w.ops && w.ops[op].retry.Some?
    ensures op in Run(w, steps).ops && Run(w, steps).ops[op] == w.ops[op]
    decreases |steps|
  {
    hide Invariant, Next;
    if steps != [] {
      StepKeepsInvariant(w, steps[0]);
      SettledStays(w, op, steps[0]);
      SettledForever(Next(w, steps[0]), op, steps[1..]);
    }
  }

  lemma PreparersLeaveUnprepared(w: World, id: Id, s: Step)
    requires Invariant(w) && id in w.ops && NobodyPrepares(w.workers, id) && s.t < |w.workers| && w.workers[s.t].Preparing?
    ensures id in PrepareStep(w, s).ops && PrepareStep(w, s).ops[id] == w.ops[id]
  {
    hide Invariant;
  }

  lemma HoldersLeaveUnprepared(w: World, id: Id, s: Step)
    requires Invariant(w) && id in w.ops && w.ops[id].events == []
    requires s.t < |w.workers| && LockOf(w.workers[s.t]).Some? && !w.workers[s.t].Preparing?
    ensures id in LockedStep(w, s).ops && LockedStep(w, s).ops[id] == w.ops[id]
  {
    assert WorkerOk(w.ops, w.used, w.workers[s.t]);
    hide Invariant, ReservationValid, ChildPlan;
  }

  lemma UnpreparedStays(w: World, id: Id, s: Step)
    requires Invariant(w) && id in w.ops && w.ops[id].events == [] && NobodyPrepares(w.workers, id)
    ensures id in Next(w, s).ops && Next(w, s).ops[id] == w.ops[id]
  {
    hide Invariant, PrepareStep, LockedStep, CanLock, NobodyPrepares;
    if s.t < |w.workers| {
      if w.workers[s.t].Preparing? {
        PreparersLeaveUnprepared(w, id, s);
      } else if !w.workers[s.t].Idle? {
        HoldersLeaveUnprepared(w, id, s);
      }
    }
  }

  lemma NobodyStarts(w: World, id: Id, s: Step)
    requires Invariant(w) && id in w.ops && NobodyPrepares(w.workers, id)
    ensures NobodyPrepares(Next(w, s).workers, id)
  {
    assert id in w.used;
    hide Invariant, ReservationValid, ChildPlan;
    OthersStay(w, s);
  }

  lemma StaysInterrupted(w: World, parent: Id, id: Id, s: Step)
    requires Invariant(w) && Interrupted(w, parent, id)
    ensures Interrupted(Next(w, s), parent, id) && Next(w, s).ops[id] == w.ops[id] && Next(w, s).ops[parent] == w.ops[parent]
  {
    hide Invariant, Next, NobodyPrepares;
    SettledStays(w, parent, s);
    UnpreparedStays(w, id, s);
    NobodyStarts(w, id, s);
  }

  /** It stays as it is whatever is done: every later retry finds it without a readable status,
      and nothing dispatches it. */
  lemma {:induction false} InterruptedForever(w: World, parent: Id, id: Id, steps: seq<Step>)
    requires Invariant(w) && Interrupted(w, parent, id)
    ensures var after := Run(w, steps);
            && Interrupted(after, parent, id) && after.ops[id] == w.ops[id] && after.ops[parent] == w.ops[parent]
            && StatusOf(after.ops[id]).None? && after.ops[id].launches == 0
    decreases |steps|
  {
    if steps == [] {
      assert DirectoryOk(id, w.ops[id]);
      hide Invariant;
    } else {
      hide Invariant, Next, Interrupted;
      StepKeepsInvariant(w, steps[0]);
      StaysInterrupted(w, parent, id, steps[0]);
      InterruptedForever(Next(w, steps[0]), parent, id, steps[1..]);
    }
  }

  /** Everything before the parent of a chain was there already, and is as it was. */
  lemma {:induction false} AncestorsSettled(w: World, steps: seq<Step>, chain: seq<Id>, k: nat, j: nat)
    requires Invariant(w) && Chain(Run(w, steps).ops, chain) && j <= k < |chain|
    requires chain[k] in w.ops && w.ops[chain[k]].retry.Some?
    ensures chain[j] in w.ops && w.ops[chain[j]].retry.Some? && Run(w, steps).ops[chain[j]] == w.ops[chain[j]]
    decreases k - j
  {
    hide Invariant, Run;
    if j < k {
      AncestorsSettled(w, steps, chain, k, j + 1);
      ParentSettled(w, Run(w, steps), chain, j);
    }
    SettledForever(w, chain[j], steps);
  }

  lemma ParentSettled(w: World, after: World, chain: seq<Id>, j: nat)
    requires Invariant(w) && Chain(after.ops, chain) && j + 1 < |chain|
    requires chain[j + 1] in w.ops && after.ops[chain[j + 1]] == w.ops[chain[j + 1]]
    ensures chain[j] in w.ops && w.ops[chain[j]].retry.Some?
  {
    assert w.ops[chain[j + 1]].plan.value.retryOf == Some(chain[j + 1 - 1]);
    ReservationHolds(w, chain[j + 1]);
    hide Invariant;
  }

  /** And its lineage is over: in every later world a chain through its parent ends there or at
      it, and has launched as often as it had. */
  lemma LineageIsOver(w: World, parent: Id, id: Id, steps: seq<Step>, chain: seq<Id>, k: nat)
    requires Invariant(w) && Interrupted(w, parent, id)
    requires Chain(Run(w, steps).ops, chain) && k < |chain| && chain[k] == parent
    ensures |chain| <= k + 2 && (k + 1 < |chain| ==> chain[k + 1] == id)
    ensures forall j :: 0 <= j < |chain| ==> chain[j] in w.ops && Run(w, steps).ops[chain[j]].launches == w.ops[chain[j]].launches
  {
    hide Invariant, Run;
    var after := Run(w, steps);
    RunKeepsInvariant(w, steps);
    InterruptedForever(w, parent, id, steps);
    if k + 1 < |chain| {
      NextIsReserved(after, chain, k);
    }
    if k + 2 < |chain| {
      NextIsReserved(after, chain, k + 1);
      UnreadableHasNoRetry(after, id);
    }
    forall j | 0 <= j <= k
      ensures chain[j] in w.ops && after.ops[chain[j]].launches == w.ops[chain[j]].launches
    {
      AncestorsSettled(w, steps, chain, k, j);
    }
  }

  lemma NextIsReserved(w: World, chain: seq<Id>, k: nat)
    requires Invariant(w) && Chain(w.ops, chain) && k + 1 < |chain|
    ensures w.ops[chain[k]].retry.Some? && w.ops[chain[k]].retry.value.operation == chain[k + 1]
  {
    assert w.ops[chain[k + 1]].plan.value.retryOf == Some(chain[k + 1 - 1]);
    ReservationHolds(w, chain[k + 1]);
    assert DirectoryOk(chain[k + 1], w.ops[chain[k + 1]]);
    hide Invariant;
  }

  lemma UnreadableHasNoRetry(w: World, id: Id)
    requires Invariant(w) && id in w.ops && w.ops[id].events == []
    ensures w.ops[id].retry.None?
  {
    assert DirectoryOk(id, w.ops[id]);
    hide Invariant;
  }
}
