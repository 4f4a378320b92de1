/** Preparers, dispatchers and retriers at work together, any of which may crash between two
    durable steps. A lock is held by whoever is at work under it, and goes with its holder. */
module DispatchRuns {
  import opened Wrappers
  import opened DispatchRules

  /** How much of a directory has been materialized. */
  datatype Stage = Chosen | Made | Planned | Lockable

  datatype Worker =
    | Idle
    | Preparing(plan: Plan, stage: Stage, parent: Option<Id>)
    | ToDispatch(op: Id)
    | Ready(op: Id)
    | Started(op: Id)
    | Launched(op: Id)
    | ToRetry(op: Id)
    | Approved(op: Id)
    | Reserved(op: Id, child: Plan)

  datatype World = World(ops: map<Id, Directory>, used: set<Id>, workers: seq<Worker>)

  datatype Step =
    | BeginPrepare(t: nat, id: Id, inputs: Id)
    | MakeDirectory(t: nat)
    | WritePlan(t: nat)
    | TouchLock(t: nat)
    | WritePrepared(t: nat)
    | LockToDispatch(t: nat, op: Id)
    | CheckPrepared(t: nat)
    | Refuse(t: nat)
    | Start(t: nat)
    | Launch(t: nat)
    | Finish(t: nat, last: Event)
    | LockToRetry(t: nat, op: Id)
    | CheckRetryable(t: nat)
    | ReserveChild(t: nat, id: Id)
    | MaterializeChild(t: nat)
    | Crash(t: nat)

  /** The operation whose lock the worker holds. */
  function LockOf(w: Worker): Option<Id> {
    match w
    case Idle => None
    case Preparing(_, _, parent) => parent
    case _ => Some(w.op)
  }

  predicate Free(workers: seq<Worker>, op: Id) {
    forall u :: 0 <= u < |workers| ==> LockOf(workers[u]) != Some(op)
  }

  function Moved(w: World, t: nat, worker: Worker): World
    requires t < |w.workers|
  {
    w.(workers := w.workers[t := worker])
  }

  function Written(w: World, t: nat, op: Id, d: Directory, worker: Worker): World
    requires t < |w.workers|
  {
    w.(ops := w.ops[op := d], workers := w.workers[t := worker])
  }

  /** A worker materializing a directory. A directory that is already there stops it. */
  function PrepareStep(w: World, s: Step): World
    requires s.t < |w.workers| && w.workers[s.t].Preparing?
  {
    var p := w.workers[s.t];
    var id := p.plan.operation;
    match s
    case MakeDirectory(t) =>
      if p.stage != Chosen then w
      else if id in w.ops then Moved(w, t, Idle)
      else Written(w, t, id, EMPTY_DIRECTORY, p.(stage := Made))
    case WritePlan(t) =>
      if p.stage == Made && id in w.ops then Written(w, t, id, w.ops[id].(plan := Some(p.plan)), p.(stage := Planned)) else w
    case TouchLock(t) =>
      if p.stage == Planned && id in w.ops then Written(w, t, id, w.ops[id].(lockable := true), p.(stage := Lockable)) else w
    case WritePrepared(t) =>
      if p.stage == Lockable && id in w.ops then Written(w, t, id, Append(w.ops[id], Event(PREPARED, false)), Idle) else w
    case _ => w
  }

  /** A worker under the lock of an operation. */
  function LockedStep(w: World, s: Step): World
    requires s.t < |w.workers| && LockOf(w.workers[s.t]).Some? && !w.workers[s.t].Preparing?
  {
    var worker := w.workers[s.t];
    var op := worker.op;
    if op !in w.ops then w
    else
      var d := w.ops[op];
      match s
      case CheckPrepared(t) =>
        if !worker.ToDispatch? then w
        else if StatusOf(d).Some? && StatusOf(d).value.state == PREPARED then Moved(w, t, Ready(op))
        else Moved(w, t, Idle)
      case Refuse(t) => if worker.Ready? then Written(w, t, op, Append(d, Event(REFUSED, false)), Idle) else w
      case Start(t) => if worker.Ready? then Written(w, t, op, Append(d, Event(RUNNING, false)), Started(op)) else w
      case Launch(t) => if worker.Started? then Written(w, t, op, d.(launches := d.launches + 1), Launched(op)) else w
      case Finish(t, last) =>
        if (worker.Started? && EndsUnlaunched(last)) || (worker.Launched? && EndsLaunched(last))
        then Written(w, t, op, Append(d, last), Idle)
        else w
      case CheckRetryable(t) =>
        if !worker.ToRetry? then w else if Retryable(d) then Moved(w, t, Approved(op)) else Moved(w, t, Idle)
      case ReserveChild(t, id) =>
        if !worker.Approved? || d.plan.None? then w
        else if d.retry.Some? then
          if ReservationValid(d.plan.value, d.retry.value) then Moved(w, t, Reserved(op, d.retry.value)) else Moved(w, t, Idle)
        else if id in w.used then w
        else
          var child := ChildPlan(d.plan.value, id);
          Written(w, t, op, d.(retry := Some(child)), Reserved(op, child)).(used := w.used + {id})
      case MaterializeChild(t) =>
        if !worker.Reserved? then w
        else if worker.child.operation in w.ops then Moved(w, t, Idle)
        else Moved(w, t, Preparing(worker.child, Chosen, Some(op)))
      case _ => w
  }

  predicate CanLock(w: World, op: Id) {
    op in w.ops && w.ops[op].plan.Some? && w.ops[op].lockable && Free(w.workers, op)
  }

  /** A step its worker is not ready for changes nothing; nor does a busy lock. Fresh ids are
      ones never chosen before. */
  function Next(w: World, s: Step): World {
    if s.t >= |w.workers| then w
    else
      var worker := w.workers[s.t];
      match s
      case Crash(t) => Moved(w, t, Idle)
      case BeginPrepare(t, id, inputs) =>
        if worker.Idle? && id !in w.used then
          Moved(w, t, Preparing(Plan(id, 1, None, inputs), Chosen, None)).(used := w.used + {id})
        else w
      case LockToDispatch(t, op) => if worker.Idle? && CanLock(w, op) then Moved(w, t, ToDispatch(op)) else w
      case LockToRetry(t, op) => if worker.Idle? && CanLock(w, op) then Moved(w, t, ToRetry(op)) else w
      case _ =>
        if worker.Idle? then w
        else if worker.Preparing? then PrepareStep(w, s)
        else LockedStep(w, s)
  }

  /** Each step is of the one kind of worker that is ready for it, except to lock and to crash. */
  predicate IsReady(worker: Worker, s: Step) {
    match s
    case BeginPrepare(_, _, _) => worker.Idle?
    case LockToDispatch(_, _) => worker.Idle?
    case LockToRetry(_, _) => worker.Idle?
    case MakeDirectory(_) => worker.Preparing? && worker.stage == Chosen
    case WritePlan(_) => worker.Preparing? && worker.stage == Made
    case TouchLock(_) => worker.Preparing? && worker.stage == Planned
    case WritePrepared(_) => worker.Preparing? && worker.stage == Lockable
    case CheckPrepared(_) => worker.ToDispatch?
    case Refuse(_) => worker.Ready?
    case Start(_) => worker.Ready?
    case Launch(_) => worker.Started?
    case Finish(_, _) => worker.Started? || worker.Launched?
    case CheckRetryable(_) => worker.ToRetry?
    case ReserveChild(_, _) => worker.Approved?
    case MaterializeChild(_) => worker.Reserved?
    case Crash(_) => true
  }

  lemma UnreadyChangesNothing(w: World, s: Step)
    requires s.t < |w.workers| && !IsReady(w.workers[s.t], s)
    ensures Next(w, s) == w
  {
    hide StatusOf, Retryable, ReservationValid, ChildPlan, Append, EndsLaunched, EndsUnlaunched;
  }

  /******* Invariant *******/

  ghost predicate DirectoriesOk(ops: map<Id, Directory>) {
    forall id :: id in ops ==> DirectoryOk(id, ops[id])
  }

  /** The identity was chosen at some time. */
  ghost predicate AllUsed(ops: map<Id, Directory>, used: set<Id>) {
    && (forall id :: id in ops ==> id in used)
    && (forall id :: id in ops && ops[id].retry.Some? ==> ops[id].retry.value.operation in used)
  }

  predicate ReservedBy(ops: map<Id, Directory>, parent: Id, child: Plan) {
    parent in ops && ops[parent].retry == Some(child)
  }

  /** A retry is the reserved successor of its parent. */
  ghost predicate Lineage(ops: map<Id, Directory>) {
    forall id :: id in ops && ops[id].plan.Some? && ops[id].plan.value.retryOf.Some? ==>
      ReservedBy(ops, ops[id].plan.value.retryOf.value, ops[id].plan.value)
  }

  predicate SameChild(ops: map<Id, Directory>, p: Id, q: Id) {
    && p in ops && q in ops && ops[p].retry.Some? && ops[q].retry.Some?
    && ops[p].retry.value.operation == ops[q].retry.value.operation
  }

  ghost predicate ChildrenDiffer(ops: map<Id, Directory>) {
    forall p, q :: SameChild(ops, p, q) ==> p == q
  }

  ghost predicate OpsOk(ops: map<Id, Directory>, used: set<Id>) {
    DirectoriesOk(ops) && AllUsed(ops, used) && Lineage(ops) && ChildrenDiffer(ops)
  }

  /** The directory is as far as the stage says. */
  predicate AtStage(ops: map<Id, Directory>, plan: Plan, stage: Stage) {
    var id := plan.operation;
    match stage
    case Chosen => id !in ops
    case Made => id in ops && ops[id] == EMPTY_DIRECTORY
    case Planned => id in ops && ops[id] == EMPTY_DIRECTORY.(plan := Some(plan))
    case Lockable => id in ops && ops[id] == EMPTY_DIRECTORY.(plan := Some(plan), lockable := true)
  }

  /** What a worker knows of the directories it works on. */
  ghost predicate WorkerOk(ops: map<Id, Directory>, used: set<Id>, w: Worker) {
    match w
    case Idle => true
    case Preparing(plan, stage, parent) =>
      && plan.operation in used && 1 <= plan.attempt <= ATTEMPT_LIMIT && plan.retryOf == parent
      && (parent.Some? ==> ReservedBy(ops, parent.value, plan) && parent.value != plan.operation)
      && AtStage(ops, plan, stage)
    case ToDispatch(op) => op in ops && ops[op].plan.Some? && ops[op].lockable
    case ToRetry(op) => op in ops && ops[op].plan.Some? && ops[op].lockable
    case Ready(op) => op in ops && |ops[op].events| == 1
    case Started(op) => op in ops && |ops[op].events| == 2 && ops[op].events[1].state == RUNNING && ops[op].launches == 0
    case Launched(op) => op in ops && |ops[op].events| == 2 && ops[op].events[1].state == RUNNING && ops[op].launches == 1
    case Approved(op) => op in ops && Retryable(ops[op])
    case Reserved(op, child) => ReservedBy(ops, op, child)
  }

  ghost predicate WorkersOk(ops: map<Id, Directory>, used: set<Id>, workers: seq<Worker>) {
    forall t :: 0 <= t < |workers| ==> WorkerOk(ops, used, workers[t])
  }

  predicate SameLock(workers: seq<Worker>, t: int, u: int) {
    && 0 <= t < |workers| && 0 <= u < |workers|
    && LockOf(workers[t]).Some? && LockOf(workers[t]) == LockOf(workers[u])
  }

  predicate SamePreparation(workers: seq<Worker>, t: int, u: int) {
    && 0 <= t < |workers| && 0 <= u < |workers|
    && workers[t].Preparing? && workers[u].Preparing? && workers[t].plan.operation == workers[u].plan.operation
  }

  /** One worker to a lock, one to a preparation. */
  ghost predicate Exclusive(workers: seq<Worker>) {
    LocksDiffer(workers) && PreparationsDiffer(workers)
  }

  ghost predicate LocksDiffer(workers: seq<Worker>) {
    forall t, u :: SameLock(workers, t, u) ==> t == u
  }

  ghost predicate PreparationsDiffer(workers: seq<Worker>) {
    forall t, u :: SamePreparation(workers, t, u) ==> t == u
  }

  /** A first attempt is nobody's reserved successor. */
  predicate Unreserved(ops: map<Id, Directory>, w: Worker, p: Id) {
    w.Preparing? && w.parent.None? && p in ops && ops[p].retry.Some? ==> ops[p].retry.value.operation != w.plan.operation
  }

  ghost predicate FirstsUnreserved(ops: map<Id, Directory>, workers: seq<Worker>) {
    forall t, p :: 0 <= t < |workers| && p in ops ==> Unreserved(ops, workers[t], p)
  }

  ghost predicate Invariant(w: World) {
    && OpsOk(w.ops, w.used)
    && WorkersOk(w.ops, w.used, w.workers)
    && Exclusive(w.workers)
    && FirstsUnreserved(w.ops, w.workers)
  }

  /******* Workers that move without writing *******/

  lemma LocksStill(workers: seq<Worker>, t: nat, worker: Worker)
    requires Exclusive(workers) && t < |workers|
    requires LockOf(worker).Some? ==> LockOf(worker) == LockOf(workers[t]) || Free(workers, LockOf(worker).value)
    ensures LocksDiffer(workers[t := worker])
  {
    var after := workers[t := worker];
    forall u, v | SameLock(after, u, v)
      ensures u == v
    {
      assert u != t ==> LockOf(workers[u]) == LockOf(after[u]);
      assert v != t ==> LockOf(workers[v]) == LockOf(after[v]);
      assert SameLock(workers, u, v) || u == v == t || Free(workers, LockOf(worker).value);
    }
  }

  predicate NobodyPrepares(workers: seq<Worker>, id: Id) {
    forall u :: 0 <= u < |workers| && workers[u].Preparing? ==> workers[u].plan.operation != id
  }

  lemma PreparationsStill(workers: seq<Worker>, t: nat, worker: Worker)
    requires Exclusive(workers) && t < |workers|
    requires worker.Preparing? ==>
      || (workers[t].Preparing? && workers[t].plan.operation == worker.plan.operation)
      || NobodyPrepares(workers, worker.plan.operation)
    ensures PreparationsDiffer(workers[t := worker])
  {
    var after := workers[t := worker];
    forall u, v | SamePreparation(after, u, v)
      ensures u == v
    {
      assert u != t ==> workers[u] == after[u];
      assert v != t ==> workers[v] == after[v];
      if worker.Preparing? {
        assert SamePreparation(workers, u, v) || u == v == t || NobodyPrepares(workers, worker.plan.operation);
      } else {
        assert SamePreparation(workers, u, v);
      }
    }
  }

  lemma ExclusiveStill(workers: seq<Worker>, t: nat, worker: Worker)
    requires Exclusive(workers) && t < |workers|
    requires LockOf(worker).Some? ==> LockOf(worker) == LockOf(workers[t]) || Free(workers, LockOf(worker).value)
    requires worker.Preparing? ==>
      || (workers[t].Preparing? && workers[t].plan.operation == worker.plan.operation)
      || NobodyPrepares(workers, worker.plan.operation)
    ensures Exclusive(workers[t := worker])
  {
    LocksStill(workers, t, worker);
    PreparationsStill(workers, t, worker);
  }

  lemma MoveKeeps(w: World, t: nat, worker: Worker)
    requires Invariant(w) && t < |w.workers| && WorkerOk(w.ops, w.used, worker)
    requires Exclusive(w.workers[t := worker])
    requires forall p :: p in w.ops ==> Unreserved(w.ops, worker, p)
    ensures Invariant(Moved(w, t, worker))
  {
    hide OpsOk, Exclusive, WorkerOk, Unreserved;
  }

  /** A worker that is neither preparing a first attempt nor taking a lock moves on. */
  lemma PlainMoveKeeps(w: World, t: nat, worker: Worker)
    requires Invariant(w) && t < |w.workers| && WorkerOk(w.ops, w.used, worker)
    requires LockOf(worker).None? || LockOf(worker) == LockOf(w.workers[t])
    requires !worker.Preparing?
    ensures Invariant(Moved(w, t, worker))
  {
    hide OpsOk, WorkerOk;
    ExclusiveStill(w.workers, t, worker);
    MoveKeeps(w, t, worker);
  }

  /******* Writing one directory *******/

  /** The directories a worker relies on. */
  predicate ReliesOn(w: Worker, id: Id) {
    LockOf(w) == Some(id) || (w.Preparing? && w.plan.operation == id)
  }

  lemma WorkerOkStill(ops: map<Id, Directory>, used: set<Id>, ops': map<Id, Directory>, used': set<Id>, w: Worker, id: Id)
    requires WorkerOk(ops, used, w) && used <= used' && !ReliesOn(w, id)
    requires forall p :: p != id ==> (p in ops <==> p in ops') && (p in ops ==> ops'[p] == ops[p])
    ensures WorkerOk(ops', used', w)
  {
  }

  /** A directory is written only by the one worker that relies on it, unless a worker merely
      holds its lock and it stays as lockable as it was. */
  lemma WriteKeeps(w: World, t: nat, id: Id, d: Directory, worker: Worker, used': set<Id>)
    requires Invariant(w) && t < |w.workers| && w.used <= used'
    requires OpsOk(w.ops[id := d], used') && WorkerOk(w.ops[id := d], used', worker)
    requires forall u :: 0 <= u < |w.workers| && u != t ==>
      !ReliesOn(w.workers[u], id) || ((w.workers[u].ToDispatch? || w.workers[u].ToRetry?) && d.plan.Some? && d.lockable)
    requires Exclusive(w.workers[t := worker])
    requires FirstsUnreserved(w.ops[id := d], w.workers[t := worker])
    ensures Invariant(World(w.ops[id := d], used', w.workers[t := worker]))
  {
    hide OpsOk, Exclusive, FirstsUnreserved;
    var ops' := w.ops[id := d];
    forall u | 0 <= u < |w.workers| && u != t
      ensures WorkerOk(ops', used', w.workers[u])
    {
      assert WorkerOk(w.ops, w.used, w.workers[u]);
      if !ReliesOn(w.workers[u], id) {
        hide WorkerOk;
        WorkerOkStill(w.ops, w.used, ops', used', w.workers[u], id);
      }
    }
    hide WorkerOk;
  }

  /** Appending to a log, or counting a launch, leaves plans and reservations alone. */
  lemma LogKeepsOps(ops: map<Id, Directory>, used: set<Id>, id: Id, d: Directory)
    requires OpsOk(ops, used) && id in ops && DirectoryOk(id, d)
    requires d.plan == ops[id].plan && d.retry == ops[id].retry
    ensures OpsOk(ops[id := d], used)
  {
    var ops' := ops[id := d];
    hide DirectoryOk;
    forall x | x in ops' && ops'[x].plan.Some? && ops'[x].plan.value.retryOf.Some?
      ensures ReservedBy(ops', ops'[x].plan.value.retryOf.value, ops'[x].plan.value)
    {
      assert ReservedBy(ops, ops[x].plan.value.retryOf.value, ops[x].plan.value);
    }
    forall p, q | SameChild(ops', p, q)
      ensures p == q
    {
      assert SameChild(ops, p, q);
    }
  }

  /** Reservations being what they were, first attempts stay unreserved. */
  lemma FirstsStill(ops: map<Id, Directory>, workers: seq<Worker>, id: Id, d: Directory, t: nat, worker: Worker)
    requires FirstsUnreserved(ops, workers) && t < |workers|
    requires d.retry == if id in ops then ops[id].retry else None
    requires worker.Preparing? ==> workers[t].Preparing? && worker.plan == workers[t].plan && worker.parent == workers[t].parent
    ensures FirstsUnreserved(ops[id := d], workers[t := worker])
  {
    var ops', after := ops[id := d], workers[t := worker];
    forall u, p | 0 <= u < |after| && p in ops'
      ensures Unreserved(ops', after[u], p)
    {
      assert p in ops ==> Unreserved(ops, workers[u], p);
    }
  }

  /** Whoever holds the lock of an operation that was prepared is alone in relying on it. */
  lemma HolderIsAlone(w: World, t: nat, op: Id)
    requires Invariant(w) && t < |w.workers| && LockOf(w.workers[t]) == Some(op) && op in w.ops && w.ops[op].events != []
    ensures forall u :: 0 <= u < |w.workers| && u != t ==> !ReliesOn(w.workers[u], op)
  {
    hide OpsOk, FirstsUnreserved;
    forall u | 0 <= u < |w.workers| && u != t
      ensures !ReliesOn(w.workers[u], op)
    {
      assert !SameLock(w.workers, t, u);
      assert WorkerOk(w.ops, w.used, w.workers[u]);
    }
  }

  /** A worker under the lock appends to the log or counts a launch. */
  lemma LogWriteKeeps(w: World, t: nat, op: Id, d: Directory, worker: Worker)
    requires Invariant(w) && t < |w.workers| && LockOf(w.workers[t]) == Some(op) && !w.workers[t].Preparing?
    requires op in w.ops && w.ops[op].events != []
    requires DirectoryOk(op, d) && d.plan == w.ops[op].plan && d.retry == w.ops[op].retry
    requires !worker.Preparing? && (LockOf(worker).None? || LockOf(worker) == Some(op))
    requires WorkerOk(w.ops[op := d], w.used, worker)
    ensures Invariant(Written(w, t, op, d, worker))
  {
    HolderIsAlone(w, t, op);
    LogKeepsOps(w.ops, w.used, op, d);
    ExclusiveStill(w.workers, t, worker);
    FirstsStill(w.ops, w.workers, op, d, t, worker);
    hide OpsOk, Exclusive, FirstsUnreserved, WorkerOk, ReliesOn, DirectoryOk;
    WriteKeeps(w, t, op, d, worker, w.used);
  }

  /** What the four log steps make of the directory and of the worker. */
  function LoggedResult(d: Directory, worker: Worker, s: Step): (Directory, Worker)
    requires LockOf(worker).Some? && !worker.Preparing?
    requires s.Refuse? || s.Start? || s.Launch? || s.Finish?
  {
    match s
    case Refuse(_) => (Append(d, Event(REFUSED, false)), Idle)
    case Start(_) => (Append(d, Event(RUNNING, false)), Started(worker.op))
    case Launch(_) => (d.(launches := d.launches + 1), Launched(worker.op))
    case Finish(_, last) => (Append(d, last), Idle)
  }

  predicate LoggedReady(worker: Worker, s: Step) {
    match s
    case Refuse(_) => worker.Ready?
    case Start(_) => worker.Ready?
    case Launch(_) => worker.Started?
    case Finish(_, last) => (worker.Started? && EndsUnlaunched(last)) || (worker.Launched? && EndsLaunched(last))
    case _ => false
  }

  lemma LoggedOk(ops: map<Id, Directory>, used: set<Id>, op: Id, worker: Worker, s: Step)
    requires op in ops && DirectoryOk(op, ops[op]) && WorkerOk(ops, used, worker) && LockOf(worker) == Some(op)
    requires LoggedReady(worker, s)
    ensures ops[op].events != []
    ensures var (after, next) := LoggedResult(ops[op], worker, s);
            && DirectoryOk(op, after) && after.plan == ops[op].plan && after.retry == ops[op].retry
            && !next.Preparing? && (LockOf(next).None? || LockOf(next) == Some(op))
            && WorkerOk(ops[op := after], used, next)
  {
  }

  lemma LoggedKeeps(w: World, s: Step)
    requires Invariant(w) && s.t < |w.workers| && LockOf(w.workers[s.t]).Some? && !w.workers[s.t].Preparing?
    requires s.Refuse? || s.Start? || s.Launch? || s.Finish?
    ensures Invariant(LockedStep(w, s))
  {
    var worker := w.workers[s.t];
    var op := worker.op;
    assert WorkerOk(w.ops, w.used, worker);
    if op in w.ops && LockedStep(w, s) != w {
      var d := w.ops[op];
      assert DirectoryOk(op, d);
      hide Invariant;
      var (after, next) := LoggedResult(d, worker, s);
      LoggedOk(w.ops, w.used, op, worker, s);
      hide DirectoryOk, WorkerOk;
      LogWriteKeeps(w, s.t, op, after, next);
    }
  }

  /******* Materializing a directory *******/

  lemma PreparerIsAlone(w: World, t: nat)
    requires Invariant(w) && t < |w.workers| && w.workers[t].Preparing?
    ensures forall u :: 0 <= u < |w.workers| && u != t ==>
      || !ReliesOn(w.workers[u], w.workers[t].plan.operation)
      || ((w.workers[u].ToDispatch? || w.workers[u].ToRetry?) && w.workers[t].stage == Lockable)
  {
    hide OpsOk, FirstsUnreserved;
    assert WorkerOk(w.ops, w.used, w.workers[t]);
    forall u | 0 <= u < |w.workers| && u != t
      ensures || !ReliesOn(w.workers[u], w.workers[t].plan.operation)
              || ((w.workers[u].ToDispatch? || w.workers[u].ToRetry?) && w.workers[t].stage == Lockable)
    {
      assert !SamePreparation(w.workers, t, u);
      assert WorkerOk(w.ops, w.used, w.workers[u]);
    }
  }

  /** A directory in the making has no reservation, and no other directory refers to it. */
  lemma MakingKeepsOps(ops: map<Id, Directory>, used: set<Id>, id: Id, d: Directory)
    requires OpsOk(ops, used) && id in used && DirectoryOk(id, d) && d.retry.None?
    requires id in ops ==> ops[id].retry.None?
    requires d.plan.Some? && d.plan.value.retryOf.Some? ==>
      d.plan.value.retryOf.value != id && ReservedBy(ops, d.plan.value.retryOf.value, d.plan.value)
    ensures OpsOk(ops[id := d], used)
  {
    var ops' := ops[id := d];
    hide DirectoryOk;
    forall x | x in ops' && ops'[x].plan.Some? && ops'[x].plan.value.retryOf.Some?
      ensures ReservedBy(ops', ops'[x].plan.value.retryOf.value, ops'[x].plan.value)
    {
      if x != id {
        assert ReservedBy(ops, ops[x].plan.value.retryOf.value, ops[x].plan.value);
      }
    }
    forall p, q | SameChild(ops', p, q)
      ensures p == q
    {
      assert SameChild(ops, p, q);
    }
  }

  lemma MakingKeeps(w: World, t: nat, d: Directory, worker: Worker)
    requires Invariant(w) && t < |w.workers| && w.workers[t].Preparing?
    requires var id := w.workers[t].plan.operation;
             && DirectoryOk(id, d) && d.retry.None? && (id in w.ops ==> w.ops[id].retry.None?)
             && (d.plan.Some? ==> d.plan.value == w.workers[t].plan)
             && (w.workers[t].stage == Lockable ==> d.plan.Some? && d.lockable)
             && WorkerOk(w.ops[id := d], w.used, worker)
    requires worker.Idle? || (worker.Preparing? && worker.plan == w.workers[t].plan && worker.parent == w.workers[t].parent)
    ensures Invariant(Written(w, t, w.workers[t].plan.operation, d, worker))
  {
    var id := w.workers[t].plan.operation;
    assert WorkerOk(w.ops, w.used, w.workers[t]);
    PreparerIsAlone(w, t);
    MakingKeepsOps(w.ops, w.used, id, d);
    ExclusiveStill(w.workers, t, worker);
    FirstsStill(w.ops, w.workers, id, d, t, worker);
    hide OpsOk, Exclusive, FirstsUnreserved, WorkerOk, ReliesOn, DirectoryOk;
    WriteKeeps(w, t, id, d, worker, w.used);
  }

  lemma PreparedKeeps(w: World, s: Step)
    requires Invariant(w) && s.t < |w.workers| && w.workers[s.t].Preparing?
    ensures Invariant(PrepareStep(w, s))
  {
    var p := w.workers[s.t];
    var id := p.plan.operation;
    assert WorkerOk(w.ops, w.used, p);
    hide Invariant;
    if PrepareStep(w, s) != w {
      match s
      case MakeDirectory(t) => MakingKeeps(w, t, EMPTY_DIRECTORY, p.(stage := Made));
      case WritePlan(t) => MakingKeeps(w, t, w.ops[id].(plan := Some(p.plan)), p.(stage := Planned));
      case TouchLock(t) => MakingKeeps(w, t, w.ops[id].(lockable := true), p.(stage := Lockable));
      case WritePrepared(t) => MakingKeeps(w, t, Append(w.ops[id], Event(PREPARED, false)), Idle);
      case _ =>
    }
  }

  /******* Reading, reserving and choosing *******/

  lemma CheckedKeeps(w: World, s: Step)
    requires Invariant(w) && s.t < |w.workers| && LockOf(w.workers[s.t]).Some? && !w.workers[s.t].Preparing?
    requires s.CheckPrepared? || s.CheckRetryable?
    ensures Invariant(LockedStep(w, s))
  {
    var worker := w.workers[s.t];
    var op := worker.op;
    assert WorkerOk(w.ops, w.used, worker);
    if op in w.ops && LockedStep(w, s) != w {
      assert DirectoryOk(op, w.ops[op]);
      hide Invariant;
      PlainMoveKeeps(w, s.t, Idle);
      if s.CheckPrepared? && StatusOf(w.ops[op]).Some? && StatusOf(w.ops[op]).value.state == PREPARED {
        PlainMoveKeeps(w, s.t, Ready(op));
      } else if s.CheckRetryable? && Retryable(w.ops[op]) {
        PlainMoveKeeps(w, s.t, Approved(op));
      }
    }
  }

  lemma ReservingKeepsOps(ops: map<Id, Directory>, used: set<Id>, op: Id, id: Id)
    requires OpsOk(ops, used) && op in ops && Retryable(ops[op]) && ops[op].retry.None? && id !in used
    ensures OpsOk(ops[op := ops[op].(retry := Some(ChildPlan(ops[op].plan.value, id)))], used + {id})
  {
    var d := ops[op].(retry := Some(ChildPlan(ops[op].plan.value, id)));
    var ops' := ops[op := d];
    assert DirectoryOk(op, d) by {
      assert DirectoryOk(op, ops[op]);
    }
    hide DirectoryOk;
    forall x | x in ops' && ops'[x].plan.Some? && ops'[x].plan.value.retryOf.Some?
      ensures ReservedBy(ops', ops'[x].plan.value.retryOf.value, ops'[x].plan.value)
    {
      assert ReservedBy(ops, ops[x].plan.value.retryOf.value, ops[x].plan.value);
    }
    forall p, q | SameChild(ops', p, q)
      ensures p == q
    {
      assert p != op && q != op ==> SameChild(ops, p, q);
    }
  }

  lemma ReservedKeeps(w: World, t: nat, id: Id)
    requires Invariant(w) && t < |w.workers| && w.workers[t].Approved?
    ensures Invariant(LockedStep(w, ReserveChild(t, id)))
  {
    var op := w.workers[t].op;
    assert WorkerOk(w.ops, w.used, w.workers[t]);
    var d := w.ops[op];
    assert DirectoryOk(op, d);
    if d.retry.Some? {
      hide Invariant;
      PlainMoveKeeps(w, t, Reserved(op, d.retry.value));
    } else if id !in w.used {
      var child := ChildPlan(d.plan.value, id);
      HolderIsAlone(w, t, op);
      ReservingKeepsOps(w.ops, w.used, op, id);
      ExclusiveStill(w.workers, t, Reserved(op, child));
      NewReservationKeepsFirsts(w, t, op, child);
      hide OpsOk, Exclusive, FirstsUnreserved, ReliesOn, DirectoryOk;
      WriteKeeps(w, t, op, d.(retry := Some(child)), Reserved(op, child), w.used + {id});
    }
  }

  lemma NewReservationKeepsFirsts(w: World, t: nat, op: Id, child: Plan)
    requires Invariant(w) && t < |w.workers| && op in w.ops && child.operation !in w.used
    ensures FirstsUnreserved(w.ops[op := w.ops[op].(retry := Some(child))], w.workers[t := Reserved(op, child)])
  {
    var ops', after := w.ops[op := w.ops[op].(retry := Some(child))], w.workers[t := Reserved(op, child)];
    hide OpsOk, Exclusive;
    forall u, p | 0 <= u < |after| && p in ops'
      ensures Unreserved(ops', after[u], p)
    {
      assert Unreserved(w.ops, w.workers[u], p) && WorkerOk(w.ops, w.used, w.workers[u]);
    }
  }

  lemma MaterializedKeeps(w: World, t: nat)
    requires Invariant(w) && t < |w.workers| && w.workers[t].Reserved?
    ensures Invariant(LockedStep(w, MaterializeChild(t)))
  {
    var op, child := w.workers[t].op, w.workers[t].child;
    assert WorkerOk(w.ops, w.used, w.workers[t]);
    assert DirectoryOk(op, w.ops[op]);
    if child.operation in w.ops {
      hide Invariant;
      PlainMoveKeeps(w, t, Idle);
    } else {
      NobodyElsePrepares(w, t);
      ExclusiveStill(w.workers, t, Preparing(child, Chosen, Some(op)));
      hide OpsOk, Exclusive, FirstsUnreserved, WorkersOk;
      assert child.operation in w.used by {
        ReservedIsUsed(w, op);
      }
      MoveKeeps(w, t, Preparing(child, Chosen, Some(op)));
    }
  }

  lemma ReservedIsUsed(w: World, op: Id)
    requires Invariant(w) && op in w.ops && w.ops[op].retry.Some?
    ensures w.ops[op].retry.value.operation in w.used
  {
  }

  lemma SameParent(ops: map<Id, Directory>, p: Id, q: Id)
    requires ChildrenDiffer(ops) && p in ops && q in ops && ops[p].retry.Some? && ops[q].retry.Some?
    requires ops[p].retry.value.operation == ops[q].retry.value.operation
    ensures p == q
  {
    assert SameChild(ops, p, q);
  }

  /** Two preparers of one successor would hold the lock of one parent. */
  lemma NobodyElsePrepares(w: World, t: nat)
    requires Invariant(w) && t < |w.workers| && w.workers[t].Reserved?
    ensures NobodyPrepares(w.workers, w.workers[t].child.operation)
  {
    hide DirectoriesOk, AllUsed, Lineage;
    var op, child := w.workers[t].op, w.workers[t].child;
    assert WorkerOk(w.ops, w.used, w.workers[t]);
    forall u | 0 <= u < |w.workers| && w.workers[u].Preparing? && w.workers[u].plan.operation == child.operation
      ensures false
    {
      assert !SameLock(w.workers, t, u);
      assert WorkerOk(w.ops, w.used, w.workers[u]) && Unreserved(w.ops, w.workers[u], op);
      SameParent(w.ops, op, w.workers[u].parent.value);
    }
  }

  lemma BegunKeeps(w: World, t: nat, id: Id, inputs: Id)
    requires Invariant(w) && t < |w.workers| && w.workers[t].Idle? && id !in w.used
    ensures Invariant(Next(w, BeginPrepare(t, id, inputs)))
  {
    var worker := Preparing(Plan(id, 1, None, inputs), Chosen, None);
    var wider := w.(used := w.used + {id});
    assert NobodyPrepares(w.workers, id) by {
      hide OpsOk, Exclusive, FirstsUnreserved;
      forall u | 0 <= u < |w.workers| && w.workers[u].Preparing?
        ensures w.workers[u].plan.operation != id
      {
        assert WorkerOk(w.ops, w.used, w.workers[u]);
      }
    }
    assert Invariant(wider) by {
      hide Exclusive, FirstsUnreserved, DirectoriesOk, Lineage, ChildrenDiffer;
      forall u | 0 <= u < |w.workers|
        ensures WorkerOk(w.ops, wider.used, w.workers[u])
      {
        assert WorkerOk(w.ops, w.used, w.workers[u]);
      }
    }
    ExclusiveStill(w.workers, t, worker);
    hide WorkersOk, Exclusive, FirstsUnreserved;
    MoveKeeps(wider, t, worker);
  }

  lemma LockedKeeps(w: World, t: nat, worker: Worker)
    requires Invariant(w) && t < |w.workers| && w.workers[t].Idle?
    requires (worker.ToDispatch? || worker.ToRetry?) && CanLock(w, worker.op)
    ensures Invariant(Moved(w, t, worker))
  {
    ExclusiveStill(w.workers, t, worker);
    hide OpsOk, WorkersOk, Exclusive, FirstsUnreserved;
    MoveKeeps(w, t, worker);
  }

  /** Every step keeps the invariant. */
  lemma StepKeepsInvariant(w: World, s: Step)
    requires Invariant(w)
    ensures Invariant(Next(w, s))
  {
    hide Invariant, PrepareStep, LockedStep, CanLock;
    if s.t < |w.workers| {
      var worker := w.workers[s.t];
      match s
      case Crash(t) => PlainMoveKeeps(w, t, Idle);
      case BeginPrepare(t, id, inputs) => if worker.Idle? && id !in w.used { BegunKeeps(w, t, id, inputs); }
      case LockToDispatch(t, op) => if worker.Idle? && CanLock(w, op) { LockedKeeps(w, t, ToDispatch(op)); }
      case LockToRetry(t, op) => if worker.Idle? && CanLock(w, op) { LockedKeeps(w, t, ToRetry(op)); }
      case _ =>
        if worker.Preparing? {
          PreparedKeeps(w, s);
        } else if !worker.Idle? {
          UnderLockKeeps(w, s);
        }
    }
  }

  lemma UnderLockKeeps(w: World, s: Step)
    requires Invariant(w) && s.t < |w.workers| && LockOf(w.workers[s.t]).Some? && !w.workers[s.t].Preparing?
    ensures Invariant(LockedStep(w, s))
  {
    hide Invariant;
    if s.Refuse? || s.Start? || s.Launch? || s.Finish? {
      LoggedKeeps(w, s);
    } else if s.CheckPrepared? || s.CheckRetryable? {
      CheckedKeeps(w, s);
    } else if s.ReserveChild? && w.workers[s.t].Approved? {
      ReservedKeeps(w, s.t, s.id);
    } else if s.MaterializeChild? && w.workers[s.t].Reserved? {
      MaterializedKeeps(w, s.t);
    }
  }
}
