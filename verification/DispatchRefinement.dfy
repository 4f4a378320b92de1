/** A sequential dispatch is a run of the concurrent system, crash or no crash. */
module DispatchRefinement {
  import opened Wrappers
  import opened DispatchRules
  import opened DispatchRuns
  import opened DispatchGuarantees
  import opened OperationLog

  /** The durable steps of one dispatcher, from the last back to the first. */
  function EndSteps(t: nat, execution: Execution, survival: Survival): seq<Step> {
    if survival == DiesBefore(2) then [Crash(t)] else [Finish(t, LastEvent(execution))]
  }

  function LaunchSteps(t: nat, execution: Execution, survival: Survival): seq<Step> {
    if survival == DiesBefore(1) then [Crash(t)]
    else if DidLaunch(execution) then [Launch(t)] + EndSteps(t, execution, survival)
    else EndSteps(t, execution, survival)
  }

  function StartSteps(t: nat, preflight: bool, execution: Execution, survival: Survival): seq<Step> {
    if survival == DiesBefore(0) then [Crash(t)]
    else if !preflight then [Refuse(t)]
    else [Start(t)] + LaunchSteps(t, execution, survival)
  }

  function StepsOf(t: nat, op: Id, preflight: bool, execution: Execution, survival: Survival): seq<Step> {
    [LockToDispatch(t, op)] + ([CheckPrepared(t)] + StartSteps(t, preflight, execution, survival))
  }

  lemma RunStep(w: World, s: Step, rest: seq<Step>)
    ensures Run(w, [s] + rest) == Run(Next(w, s), rest)
  {
    hide Next;
    assert ([s] + rest)[1..] == rest;
  }

  lemma RunLast(w: World, s: Step)
    ensures Run(w, [s]) == Next(w, s)
  {
    hide Next;
    assert [s][1..] == [];
  }

  /** The worker t with the given directory for op; all else as in w. */
  function At(w: World, t: nat, op: Id, d: Directory, worker: Worker): World
    requires t < |w.workers|
  {
    w.(ops := w.ops[op := d], workers := w.workers[t := worker])
  }

  lemma Locks(w: World, t: nat, op: Id)
    requires t < |w.workers| && w.workers[t].Idle? && CanLock(w, op)
    ensures Next(w, LockToDispatch(t, op)) == At(w, t, op, w.ops[op], ToDispatch(op))
  {
    assert w.ops[op := w.ops[op]] == w.ops;
  }

  lemma Moves(w: World, t: nat, op: Id, d: Directory, before: Worker, after: Worker)
    requires t < |w.workers|
    ensures Moved(At(w, t, op, d, before), t, after) == At(w, t, op, d, after)
  {
  }

  lemma Writes(w: World, t: nat, op: Id, d: Directory, before: Worker, e: Directory, after: Worker)
    requires t < |w.workers|
    ensures Written(At(w, t, op, d, before), t, op, e, after) == At(w, t, op, e, after)
  {
    assert w.ops[op := d][op := e] == w.ops[op := e];
  }

  lemma Checks(w: World, t: nat, op: Id, d: Directory)
    requires t < |w.workers| && d.plan.Some? && |d.events| == 1 && d.events[0].state == PREPARED
    ensures Next(At(w, t, op, d, ToDispatch(op)), CheckPrepared(t)) == At(w, t, op, d, Ready(op))
  {
    Moves(w, t, op, d, ToDispatch(op), Ready(op));
    hide Moved, Written;
  }

  lemma Refuses(w: World, t: nat, op: Id, d: Directory)
    requires t < |w.workers|
    ensures Next(At(w, t, op, d, Ready(op)), Refuse(t)) == At(w, t, op, Append(d, Event(REFUSED, false)), Idle)
  {
    Writes(w, t, op, d, Ready(op), Append(d, Event(REFUSED, false)), Idle);
    hide Moved, Written, Append;
  }

  lemma Starts(w: World, t: nat, op: Id, d: Directory)
    requires t < |w.workers|
    ensures Next(At(w, t, op, d, Ready(op)), Start(t)) == At(w, t, op, Append(d, Event(RUNNING, false)), Started(op))
  {
    Writes(w, t, op, d, Ready(op), Append(d, Event(RUNNING, false)), Started(op));
    hide Moved, Written, Append;
  }

  lemma Launches(w: World, t: nat, op: Id, d: Directory)
    requires t < |w.workers|
    ensures Next(At(w, t, op, d, Started(op)), Launch(t)) == At(w, t, op, d.(launches := d.launches + 1), Launched(op))
  {
    Writes(w, t, op, d, Started(op), d.(launches := d.launches + 1), Launched(op));
    hide Moved, Written;
  }

  lemma Ends(w: World, t: nat, op: Id, d: Directory, worker: Worker, last: Event)
    requires t < |w.workers|
    requires (worker == Started(op) && EndsUnlaunched(last)) || (worker == Launched(op) && EndsLaunched(last))
    ensures Next(At(w, t, op, d, worker), Finish(t, last)) == At(w, t, op, Append(d, last), Idle)
  {
    Writes(w, t, op, d, worker, Append(d, last), Idle);
    hide Moved, Written, Append;
  }

  lemma Crashes(w: World, t: nat, op: Id, d: Directory, worker: Worker)
    requires t < |w.workers|
    ensures Next(At(w, t, op, d, worker), Crash(t)) == At(w, t, op, d, Idle)
  {
    Moves(w, t, op, d, worker, Idle);
    hide Moved, Written;
  }

  predicate CanEnd(execution: Execution) {
    execution.Ended? ==> Terminal(execution.state) && execution.state != REFUSED
  }

  lemma EndIsARun(w: World, t: nat, op: Id, d: Directory, worker: Worker, execution: Execution, survival: Survival)
    requires t < |w.workers| && CanEnd(execution)
    requires worker == if DidLaunch(execution) then Launched(op) else Started(op)
    ensures Run(At(w, t, op, d, worker), EndSteps(t, execution, survival)) ==
            At(w, t, op, if survival == DiesBefore(2) then d else Append(d, LastEvent(execution)), Idle)
  {
    hide Next, Run, At, Append;
    RunLast(At(w, t, op, d, worker), Crash(t));
    RunLast(At(w, t, op, d, worker), Finish(t, LastEvent(execution)));
    Crashes(w, t, op, d, worker);
    Ends(w, t, op, d, worker, LastEvent(execution));
  }

  lemma LaunchIsARun(w: World, t: nat, op: Id, d: Directory, execution: Execution, survival: Survival)
    requires t < |w.workers| && CanEnd(execution)
    ensures var launched := if DidLaunch(execution) then d.(launches := d.launches + 1) else d;
            Run(At(w, t, op, d, Started(op)), LaunchSteps(t, execution, survival)) ==
            At(w, t, op, if survival == DiesBefore(1) then d
                         else if survival == DiesBefore(2) then launched
                         else Append(launched, LastEvent(execution)), Idle)
  {
    hide Next, Run, At, Append, EndSteps, LastEvent, CanEnd, DidLaunch;
    if survival == DiesBefore(1) {
      RunLast(At(w, t, op, d, Started(op)), Crash(t));
      Crashes(w, t, op, d, Started(op));
    } else if DidLaunch(execution) {
      var launched := d.(launches := d.launches + 1);
      Launches(w, t, op, d);
      RunStep(At(w, t, op, d, Started(op)), Launch(t), EndSteps(t, execution, survival));
      EndIsARun(w, t, op, launched, Launched(op), execution, survival);
    } else {
      EndIsARun(w, t, op, d, Started(op), execution, survival);
    }
  }

  lemma StartIsARun(w: World, t: nat, op: Id, d: Directory, preflight: bool, execution: Execution, survival: Survival)
    requires t < |w.workers| && CanEnd(execution)
    ensures Run(At(w, t, op, d, Ready(op)), StartSteps(t, preflight, execution, survival)) ==
            At(w, t, op, Dispatched(d, preflight, execution, survival), Idle)
  {
    hide Next, Run, At, Append, LaunchSteps, LastEvent, CanEnd, DidLaunch;
    if survival == DiesBefore(0) {
      RunLast(At(w, t, op, d, Ready(op)), Crash(t));
      Crashes(w, t, op, d, Ready(op));
    } else if !preflight {
      RunLast(At(w, t, op, d, Ready(op)), Refuse(t));
      Refuses(w, t, op, d);
    } else {
      Starts(w, t, op, d);
      RunStep(At(w, t, op, d, Ready(op)), Start(t), LaunchSteps(t, execution, survival));
      LaunchIsARun(w, t, op, Append(d, Event(RUNNING, false)), execution, survival);
    }
  }

  /** What the dispatcher of an operation directory does is what its steps do: same events, same
      launches, and the lock free again. */
  lemma DispatchIsARun(w: World, t: nat, op: Id, preflight: bool, execution: Execution, survival: Survival)
    requires t < |w.workers| && w.workers[t].Idle? && CanLock(w, op) && CanEnd(execution)
    requires |w.ops[op].events| == 1 && w.ops[op].events[0].state == PREPARED
    ensures Run(w, StepsOf(t, op, preflight, execution, survival)) ==
            At(w, t, op, Dispatched(w.ops[op], preflight, execution, survival), Idle)
  {
    var d := w.ops[op];
    Locks(w, t, op);
    Checks(w, t, op, d);
    hide Next, Run, At, StartSteps, Dispatched, CanEnd;
    RunStep(w, LockToDispatch(t, op), [CheckPrepared(t)] + StartSteps(t, preflight, execution, survival));
    RunStep(At(w, t, op, d, ToDispatch(op)), CheckPrepared(t), StartSteps(t, preflight, execution, survival));
    StartIsARun(w, t, op, d, preflight, execution, survival);
  }

  lemma LocksToRetry(w: World, t: nat, op: Id)
    requires t < |w.workers| && w.workers[t].Idle? && CanLock(w, op)
    ensures Next(w, LockToRetry(t, op)) == At(w, t, op, w.ops[op], ToRetry(op))
  {
    assert w.ops[op := w.ops[op]] == w.ops;
  }

  lemma Approves(w: World, t: nat, op: Id, d: Directory)
    requires t < |w.workers| && Retryable(d)
    ensures Next(At(w, t, op, d, ToRetry(op)), CheckRetryable(t)) == At(w, t, op, d, Approved(op))
  {
    Moves(w, t, op, d, ToRetry(op), Approved(op));
    hide Moved, Written, Retryable;
  }

  lemma Reserves(w: World, t: nat, op: Id, d: Directory, freshId: Id)
    requires t < |w.workers| && d.plan.Some? && freshId !in w.used
    requires d.retry.Some? ==> ReservationValid(d.plan.value, d.retry.value)
    ensures var after := WithSuccessor(d, freshId);
            var next := Next(At(w, t, op, d, Approved(op)), ReserveChild(t, freshId));
            && next == At(w, t, op, after, Reserved(op, after.retry.value)).(used := next.used)
            && next.used == if d.retry.Some? then w.used else w.used + {freshId}
  {
    var after := WithSuccessor(d, freshId);
    Moves(w, t, op, d, Approved(op), Reserved(op, after.retry.value));
    Writes(w, t, op, d, Approved(op), after, Reserved(op, after.retry.value));
    hide Moved, Written, ReservationValid, ChildPlan;
  }

  lemma {:induction false} RunAppend(w: World, first: seq<Step>, second: seq<Step>)
    ensures Run(w, first + second) == Run(Run(w, first), second)
    decreases |first|
  {
    hide Next;
    if first == [] {
      assert first + second == second;
    } else {
      RunAppend(Next(w, first[0]), first[1..], second);
      assert (first + second)[1..] == first[1..] + second;
    }
  }

  /** Up to the reservation. */
  lemma ReservationIsARun(w: World, t: nat, op: Id, freshId: Id)
    requires t < |w.workers| && w.workers[t].Idle? && CanLock(w, op) && freshId !in w.used
    requires DirectoryOk(op, w.ops[op]) && Retryable(w.ops[op])
    ensures var after := WithSuccessor(w.ops[op], freshId);
            var last := Run(w, [LockToRetry(t, op)] + ([CheckRetryable(t)] + [ReserveChild(t, freshId)]));
            && last == At(w, t, op, after, Reserved(op, after.retry.value)).(used := last.used)
            && last.used == if w.ops[op].retry.Some? then w.used else w.used + {freshId}
  {
    var d := w.ops[op];
    LocksToRetry(w, t, op);
    Approves(w, t, op, d);
    Reserves(w, t, op, d, freshId);
    hide Next, Run, At, WithSuccessor, CanLock;
    RunStep(w, LockToRetry(t, op), [CheckRetryable(t)] + [ReserveChild(t, freshId)]);
    RunStep(At(w, t, op, d, ToRetry(op)), CheckRetryable(t), [ReserveChild(t, freshId)]);
    RunLast(At(w, t, op, d, Approved(op)), ReserveChild(t, freshId));
  }

  /******* Materializing the successor *******/

  const PARTS: nat := 4

  /** The directory with its first parts durable: itself, its plan, its lock, its PREPARED event. */
  function Partial(plan: Plan, n: nat): Directory {
    match n
    case 0 => EMPTY_DIRECTORY
    case 1 => EMPTY_DIRECTORY
    case 2 => EMPTY_DIRECTORY.(plan := Some(plan))
    case 3 => EMPTY_DIRECTORY.(plan := Some(plan), lockable := true)
    case _ => Directory(Some(plan), true, [Event(PREPARED, false)], None, 0)
  }

  /** A directory that is there already is left alone. */
  function Materialized(ops: map<Id, Directory>, plan: Plan, n: nat): map<Id, Directory> {
    if plan.operation in ops || n == 0 then ops else ops[plan.operation := Partial(plan, n)]
  }

  function StageAfter(n: nat): Stage {
    match n
    case 0 => Chosen
    case 1 => Made
    case 2 => Planned
    case _ => Lockable
  }

  function PartStep(t: nat, n: nat): Step {
    match n
    case 0 => MakeDirectory(t)
    case 1 => WritePlan(t)
    case 2 => TouchLock(t)
    case _ => WritePrepared(t)
  }

  function Preparation(t: nat, n: nat): seq<Step> {
    if n == 0 then [] else Preparation(t, n - 1) + [PartStep(t, n - 1)]
  }

  /** The world while worker t has made the first n parts of an operation. */
  function Building(w: World, t: nat, parent: Option<Id>, plan: Plan, n: nat): World
    requires t < |w.workers|
  {
    w.(ops := Materialized(w.ops, plan, n),
       workers := w.workers[t := if n < PARTS && plan.operation !in w.ops
                                 then Preparing(plan, StageAfter(n), parent) else Idle])
  }

  lemma BuildsOne(w: World, t: nat, parent: Option<Id>, plan: Plan, n: nat)
    requires t < |w.workers| && n < PARTS
    ensures Next(Building(w, t, parent, plan, n), PartStep(t, n)) == Building(w, t, parent, plan, n + 1)
  {
    var id, before := plan.operation, Building(w, t, parent, plan, n).workers[t];
    var after := Building(w, t, parent, plan, n + 1).workers[t];
    assert w.workers[t := before][t := after] == w.workers[t := after];
    assert w.ops[id := Partial(plan, n)][id := Partial(plan, n + 1)] == w.ops[id := Partial(plan, n + 1)];
    assert [] + [Event(PREPARED, false)] == [Event(PREPARED, false)];
  }

  lemma {:induction false} Builds(w: World, t: nat, parent: Option<Id>, plan: Plan, n: nat)
    requires t < |w.workers| && n <= PARTS
    ensures Run(Building(w, t, parent, plan, 0), Preparation(t, n)) == Building(w, t, parent, plan, n)
  {
    hide Next, Building;
    if n > 0 {
      hide Run;
      Builds(w, t, parent, plan, n - 1);
      RunAppend(Building(w, t, parent, plan, 0), Preparation(t, n - 1), [PartStep(t, n - 1)]);
      RunLast(Building(w, t, parent, plan, n - 1), PartStep(t, n - 1));
      BuildsOne(w, t, parent, plan, n - 1);
    }
  }

  lemma Materializes(w: World, t: nat, op: Id, child: Plan)
    requires t < |w.workers| && op in w.ops && w.workers[t] == Reserved(op, child)
    ensures Next(w, MaterializeChild(t)) == Building(w, t, Some(op), child, 0)
  {
  }

  lemma BuilderDies(w: World, t: nat, parent: Option<Id>, plan: Plan, n: nat)
    requires t < |w.workers|
    ensures Next(Building(w, t, parent, plan, n), Crash(t)) ==
            w.(ops := Materialized(w.ops, plan, n), workers := w.workers[t := Idle])
  {
  }

  /** What a preparer of a first attempt leaves, dying after n parts unless these are all, is what
      its steps leave; and it may begin under any identity never chosen before. */
  lemma PreparationIsARun(w: World, t: nat, id: Id, inputs: Id, n: nat)
    requires t < |w.workers| && w.workers[t].Idle? && id !in w.used && id !in w.ops && n <= PARTS
    ensures Run(w, [BeginPrepare(t, id, inputs)] + (Preparation(t, n) + [Crash(t)])) ==
            World(Materialized(w.ops, Plan(id, 1, None, inputs), n), w.used + {id}, w.workers)
  {
    var plan := Plan(id, 1, None, inputs);
    var chosen := w.(used := w.used + {id});
    assert Next(w, BeginPrepare(t, id, inputs)) == Building(chosen, t, None, plan, 0);
    assert chosen.workers[t := Idle] == w.workers;
    hide Run, Next, Building, Materialized, Preparation;
    RunStep(w, BeginPrepare(t, id, inputs), Preparation(t, n) + [Crash(t)]);
    RunAppend(Building(chosen, t, None, plan, 0), Preparation(t, n), [Crash(t)]);
    Builds(chosen, t, None, plan, n);
    RunLast(Building(chosen, t, None, plan, n), Crash(t));
    BuilderDies(chosen, t, None, plan, n);
  }

  /** All that a retrier does, dying after n parts of the successor unless these are all. */
  function RetrySteps(t: nat, op: Id, freshId: Id, n: nat): seq<Step> {
    ([LockToRetry(t, op)] + ([CheckRetryable(t)] + [ReserveChild(t, freshId)])) +
    ([MaterializeChild(t)] + (Preparation(t, n) + [Crash(t)]))
  }

  /** What a retrier leaves, from its lock to the last part of the successor that it made, is what
      its steps leave: one reservation, and a successor it found, or made so far. */
  lemma RetryIsARun(w: World, t: nat, op: Id, freshId: Id, n: nat)
    requires t < |w.workers| && w.workers[t].Idle? && CanLock(w, op) && freshId !in w.used && n <= PARTS
    requires DirectoryOk(op, w.ops[op]) && Retryable(w.ops[op])
    ensures var after := WithSuccessor(w.ops[op], freshId);
            Run(w, RetrySteps(t, op, freshId, n)) ==
            World(Materialized(w.ops[op := after], after.retry.value, n),
                  if w.ops[op].retry.Some? then w.used else w.used + {freshId}, w.workers)
  {
    var after := WithSuccessor(w.ops[op], freshId);
    var child := after.retry.value;
    var head := [LockToRetry(t, op)] + ([CheckRetryable(t)] + [ReserveChild(t, freshId)]);
    var reserved := Run(w, head);
    ReservationIsARun(w, t, op, freshId);
    assert reserved.workers[t := Idle] == w.workers;
    hide Run, Next, WithSuccessor, Building, Materialized, Preparation;
    RunAppend(w, head, [MaterializeChild(t)] + (Preparation(t, n) + [Crash(t)]));
    RunStep(reserved, MaterializeChild(t), Preparation(t, n) + [Crash(t)]);
    Materializes(reserved, t, op, child);
    RunAppend(Building(reserved, t, Some(op), child, 0), Preparation(t, n), [Crash(t)]);
    Builds(reserved, t, Some(op), child, n);
    RunLast(Building(reserved, t, Some(op), child, n), Crash(t));
    BuilderDies(reserved, t, Some(op), child, n);
  }

  /** Nobody else prepares the successor of an operation whose lock is free. */
  lemma SuccessorIsUntouched(w: World, op: Id, freshId: Id)
    requires Invariant(w) && CanLock(w, op) && freshId !in w.used && w.ops[op].plan.Some?
    ensures NobodyPrepares(w.workers, WithSuccessor(w.ops[op], freshId).retry.value.operation)
  {
    var id := WithSuccessor(w.ops[op], freshId).retry.value.operation;
    forall u | 0 <= u < |w.workers| && w.workers[u].Preparing?
      ensures w.workers[u].plan.operation != id
    {
      var preparer := w.workers[u];
      assert WorkerOk(w.ops, w.used, preparer) && LockOf(preparer) != Some(op);
      assert Unreserved(w.ops, preparer, op);
      assert preparer.parent.Some? ==> !SameChild(w.ops, op, preparer.parent.value);
    }
    hide Invariant;
  }

  /** A retrier that dies with the successor begun and not prepared has ended the lineage: the
      successor is interrupted, and stays so for ever. */
  lemma DeadRetrierInterrupts(w: World, t: nat, op: Id, freshId: Id, n: nat)
    requires Invariant(w) && t < |w.workers| && w.workers[t].Idle? && CanLock(w, op) && freshId !in w.used
    requires Retryable(w.ops[op]) && 0 < n < PARTS
    requires WithSuccessor(w.ops[op], freshId).retry.value.operation !in w.ops
    ensures Interrupted(Run(w, RetrySteps(t, op, freshId, n)), op, WithSuccessor(w.ops[op], freshId).retry.value.operation)
  {
    assert DirectoryOk(op, w.ops[op]);
    RetryIsARun(w, t, op, freshId, n);
    SuccessorIsUntouched(w, op, freshId);
    hide Run, RetrySteps, Invariant, NobodyPrepares;
  }
}
