/** The durable log of one transport operation: its plan, its events and its retry reservation. */
module DispatchRules {
  import opened Wrappers

  type Id = int

  datatype State =
    | PREPARED
    | RUNNING
    | REFUSED
    | FAILED
    | TIMED_OUT
    | CANCELLED
    | OUTPUT_LIMIT
    | RESULT_INVALID
    | INGESTION_REJECTED
    | AWAITING_ADMISSION

  /** An event, with whether its reason is that the process could not be controlled. */
  datatype Event = Event(state: State, lostControl: bool)

  /** The fields that tell attempts apart; inputs stands for all the others. */
  datatype Plan = Plan(operation: Id, attempt: int, retryOf: Option<Id>, inputs: Id)

  datatype Directory = Directory(plan: Option<Plan>, lockable: bool, events: seq<Event>, retry: Option<Plan>, launches: nat)

  const EVENT_LIMIT: nat := 3
  const ATTEMPT_LIMIT: int := 3
  const EMPTY_DIRECTORY: Directory := Directory(None, false, [], None, 0)

  predicate Terminal(s: State) {
    s != PREPARED && s != RUNNING
  }

  /** A producer that was not launched can only have failed or been cancelled. */
  predicate EndsUnlaunched(e: Event) {
    e.state == FAILED || (e.state == CANCELLED && !e.lostControl)
  }

  predicate EndsLaunched(e: Event) {
    Terminal(e.state) && e.state != REFUSED && (e.lostControl ==> e.state == FAILED)
  }

  predicate MayRetry(e: Event) {
    Terminal(e.state) && e.state != AWAITING_ADMISSION && !e.lostControl
  }

  /** PREPARED; PREPARED, RUNNING; PREPARED, REFUSED; or PREPARED, RUNNING, terminal. */
  predicate Legal(events: seq<Event>) {
    match |events|
    case 1 => events[0].state == PREPARED
    case 2 => events[0].state == PREPARED && (events[1].state == RUNNING || events[1].state == REFUSED)
    case 3 => events[0].state == PREPARED && events[1].state == RUNNING && Terminal(events[2].state)
    case _ => false
  }

  /** The history check made on every read. It lets any terminal follow PREPARED. */
  predicate Accepted(events: seq<Event>) {
    && 1 <= |events| <= EVENT_LIMIT
    && events[0].state == PREPARED
    && (|events| >= 2 ==> events[1].state != PREPARED)
    && (|events| == 3 ==> events[1].state == RUNNING && Terminal(events[2].state))
  }

  /** Readers accept just the legal histories, and those that jump from PREPARED to a terminal
      state. */
  lemma LegalIsAccepted(events: seq<Event>)
    ensures Accepted(events) <==>
      || Legal(events)
      || (|events| == 2 && events[0].state == PREPARED && events[1].state != PREPARED && events[1].state != RUNNING)
  {
  }

  /** The current event of a history that passes the check. */
  method Status(events: seq<Event>) returns (current: Option<Event>)
    ensures current.Some? <==> Accepted(events)
    ensures current.Some? ==> current.value == events[|events| - 1]
  {
    if !(1 <= |events| <= EVENT_LIMIT) {
      return None;
    }
    for i := 0 to |events|
      invariant i >= 1 ==> events[0].state == PREPARED
      invariant i >= 2 ==> events[1].state != PREPARED
      invariant i >= 3 ==> events[1].state == RUNNING && Terminal(events[2].state)
    {
      var state := events[i].state;
      if || (i == 0 && state != PREPARED)
         || (i == 1 && !Terminal(state) && state != RUNNING)
         || (i == 2 && (events[1].state != RUNNING || !Terminal(state)))
      {
        return None;
      }
    }
    current := Some(events[|events| - 1]);
  }

  function StatusOf(d: Directory): Option<Event> {
    if d.plan.Some? && Accepted(d.events) then Some(d.events[|d.events| - 1]) else None
  }

  /** The plan of the next attempt: new identity, same inputs. */
  function ChildPlan(parent: Plan, id: Id): Plan {
    Plan(id, parent.attempt + 1, Some(parent.operation), parent.inputs)
  }

  /** The checks made on a reservation that is already there. */
  predicate ReservationValid(parent: Plan, child: Plan) {
    child == ChildPlan(parent, child.operation) && child.operation != parent.operation
  }

  /** Whether an attempt may be made after this one. */
  predicate Retryable(d: Directory) {
    StatusOf(d).Some? && MayRetry(StatusOf(d).value) && d.plan.value.attempt < ATTEMPT_LIMIT
  }

  /** A history that ended short of admission and under control: refused, or run and ended. */
  predicate EndedShort(events: seq<Event>) {
    && 2 <= |events| <= 3 && events[0].state == PREPARED && (|events| == 3 ==> events[1].state == RUNNING)
    && !events[|events| - 1].lostControl
    && events[|events| - 1].state in
         {REFUSED, FAILED, TIMED_OUT, CANCELLED, OUTPUT_LIMIT, RESULT_INVALID, INGESTION_REJECTED}
  }

  /** Just these allow another attempt, and the first two attempts of a lineage. */
  lemma RetryableExactly(d: Directory)
    ensures Retryable(d) <==> d.plan.Some? && d.plan.value.attempt < 3 && EndedShort(d.events)
  {
    if d.events != [] {
      var last := d.events[|d.events| - 1];
      var short := {REFUSED, FAILED, TIMED_OUT, CANCELLED, OUTPUT_LIMIT, RESULT_INVALID, INGESTION_REJECTED};
      assert MayRetry(last) <==> last.state in short && !last.lostControl;
    }
  }

  /** How an operation can have ended: awaiting admission, for one, only after its launch, and out
      of control only as FAILED. */
  predicate EndFits(last: Event, launches: nat) {
    && Terminal(last.state) && last.state != REFUSED && (last.lostControl ==> last.state == FAILED)
    && (launches == 0 ==> last.state == FAILED || last.state == CANCELLED)
  }

  /** What is kept of every operation directory. */
  predicate DirectoryOk(id: Id, d: Directory) {
    && (d.lockable ==> d.plan.Some?)
    && (d.plan.Some? ==> d.plan.value.operation == id && 1 <= d.plan.value.attempt <= ATTEMPT_LIMIT)
    && (d.events != [] ==> d.lockable && Legal(d.events))
    && d.launches <= 1
    && (d.launches == 1 ==> |d.events| >= 2 && d.events[1].state == RUNNING)
    && (|d.events| == 3 ==> EndFits(d.events[2], d.launches))
    && (d.retry.Some? ==> Retryable(d) && ReservationValid(d.plan.value, d.retry.value))
  }

  function Append(d: Directory, e: Event): Directory {
    d.(events := d.events + [e])
  }
}
