/** One dispatcher at work on an operation directory, until it ends or crashes. */
module OperationLog {
  import opened Wrappers
  import opened DispatchRules

  /** How the producer process ended: never launched, out of control, or with a final state. */
  datatype Execution = Unlaunched(cancelled: bool) | LostControl(launched: bool) | Ended(state: State)

  /** How far a dispatcher gets: it may die before any of its durable steps. */
  datatype Survival = DiesBefore(step: nat) | Survives

  function LastEvent(execution: Execution): Event {
    match execution
    case Unlaunched(cancelled) => Event(if cancelled then CANCELLED else FAILED, false)
    case LostControl(_) => Event(FAILED, true)
    case Ended(state) => Event(state, false)
  }

  predicate DidLaunch(execution: Execution) {
    execution.Ended? || (execution.LostControl? && execution.launched)
  }

  /** The prepared directory after a dispatcher that refuses, or dies, or sees the producer end. */
  function Dispatched(d: Directory, preflight: bool, execution: Execution, survival: Survival): Directory {
    if survival == DiesBefore(0) then d
    else if !preflight then Append(d, Event(REFUSED, false))
    else
      var running := Append(d, Event(RUNNING, false));
      if survival == DiesBefore(1) then running
      else
        var launched := if DidLaunch(execution) then running.(launches := running.launches + 1) else running;
        if survival == DiesBefore(2) then launched else Append(launched, LastEvent(execution))
  }

  /** What a dispatch comes to. It records a launch just when the producer was launched, and an end
      just when it lived to see one; and another attempt may follow just when it refused, or saw
      the producer end under control and short of admission. */
  lemma DispatchOutcome(d: Directory, preflight: bool, execution: Execution, survival: Survival)
    requires d.plan.Some? && |d.events| == 1 && d.events[0].state == PREPARED
    requires execution.Ended? ==> Terminal(execution.state) && execution.state != REFUSED
    ensures var after := Dispatched(d, preflight, execution, survival);
            var started := preflight && survival != DiesBefore(0);
            var ran := started && survival != DiesBefore(1);
            var ended := ran && survival != DiesBefore(2);
            && after.plan == d.plan && after.retry == d.retry && d.events <= after.events && Legal(after.events)
            && (after.events == d.events <==> survival == DiesBefore(0))
            && (|after.events| == 3 <==> ended) && (started ==> after.events[1].state == RUNNING)
            && after.launches == d.launches + (if ran && (execution.Ended? || execution == LostControl(true)) then 1 else 0)
            && (ended && !execution.Ended? ==>
                  after.events[2] == Event(if execution == Unlaunched(true) then CANCELLED else FAILED, execution.LostControl?))
            && (ended && execution.Ended? ==> after.events[2] == Event(execution.state, false))
            && (EndedShort(after.events) <==>
                  || (survival != DiesBefore(0) && !preflight)
                  || (ended && !execution.LostControl? && execution != Ended(AWAITING_ADMISSION)))
  {
  }

  /** The directory once a successor is reserved: the one already there, or a fresh one. */
  function WithSuccessor(d: Directory, freshId: Id): Directory
    requires d.plan.Some?
  {
    if d.retry.Some? then d else d.(retry := Some(ChildPlan(d.plan.value, freshId)))
  }

  /** Why no successor is answered. */
  datatype RetryRefusal = NotRetryable | InvalidReservation

  class OperationDirectory {
    const plan: Plan
    var events: seq<Event>
    var retry: Option<Plan>
    var launches: nat

    constructor (plan: Plan)
      ensures this.plan == plan && State() == Directory(Some(plan), true, [], None, 0)
    {
      this.plan := plan;
      events, retry, launches := [], None, 0;
    }

    /** Appends the next numbered event, up to the limit. */
    method Record(e: Event) returns (ok: bool)
      modifies this`events
      ensures ok <==> old(|events|) < EVENT_LIMIT
      ensures events == if ok then old(events) + [e] else old(events)
    {
      ok := |events| < EVENT_LIMIT;
      if ok {
        events := events + [e];
      }
    }

    function State(): Directory
      reads this
    {
      Directory(Some(plan), true, events, retry, launches)
    }

    /** Under the lock: refuse, or record RUNNING, launch once, and record how it ended. Only a
        PREPARED operation is touched, so a second call never launches again. */
    method Dispatch(preflight: bool, execution: Execution, survival: Survival) returns (rejected: bool)
      requires events != [] ==> Legal(events)
      requires execution.Ended? ==> Terminal(execution.state) && execution.state != REFUSED
      modifies this`events, this`launches
      ensures rejected <==> |old(events)| != 1
      ensures State() == if rejected then old(State()) else old(Dispatched(State(), preflight, execution, survival))
      ensures events != [] ==> Legal(events)
      ensures launches > old(launches) ==> |events| >= 2 && events[1].state == RUNNING && launches == old(launches) + 1
    {
      var current := Status(events);
      if current.None? || current.value.state != PREPARED {
        if |events| == 1 {
          assert false;
        }
        return true;
      }
      rejected := false;
      var ok;
      if survival == DiesBefore(0) {
        return;
      }
      if !preflight {
        ok := Record(Event(REFUSED, false));
        return;
      }
      ok := Record(Event(RUNNING, false));
      if survival == DiesBefore(1) {
        return;
      }
      if execution.Ended? || (execution.LostControl? && execution.launched) {
        launches := launches + 1;
      }
      if survival == DiesBefore(2) {
        return;
      }
      ok := Record(LastEvent(execution));
    }

    /** Under the lock: reuse the reserved successor if it is this plan's, or reserve a fresh one
        before anything of it exists. Repeating the call returns the same successor. */
    method Retry(freshId: Id) returns (child: Result<Plan, RetryRefusal>)
      requires freshId != plan.operation
      modifies this`retry
      ensures child == Err(NotRetryable) <==> plan.attempt >= 3 || !EndedShort(events)
      ensures child.Ok? <==>
        plan.attempt < 3 && EndedShort(events) && (old(retry).Some? ==> ReservationValid(plan, old(retry).value))
      ensures State() == if child.Ok? then old(WithSuccessor(State(), freshId)) else old(State())
      ensures child.Ok? ==> retry == Some(child.value) && child.value.operation != plan.operation
      ensures child.Ok? ==> child.value == Plan(child.value.operation, plan.attempt + 1, Some(plan.operation), plan.inputs)
      ensures child.Ok? && old(retry).None? ==> child.value.operation == freshId
      ensures old(DirectoryOk(plan.operation, State())) ==>
        DirectoryOk(plan.operation, State()) && child != Err(InvalidReservation)
    {
      RetryableExactly(State());
      var current := Status(events);
      if current.None? || !MayRetry(current.value) || plan.attempt >= ATTEMPT_LIMIT {
        return Err(NotRetryable);
      }
      if retry.Some? {
        if retry.value != ChildPlan(plan, retry.value.operation) || retry.value.operation == plan.operation {
          return Err(InvalidReservation);
        }
        return Ok(retry.value);
      }
      retry := Some(ChildPlan(plan, freshId));
      child := Ok(retry.value);
    }
  }
}
