/** Any number of calls to the authoring service, interleaved at its lock. */
module AuthoringRuns {
  import opened Wrappers
  import opened AuthoringRules

  datatype Call = Call(key: Id, source: Source)

  /** How a call came by its answer: by its own publication, by binding its key to a published
      attempt, or because its key was bound already. */
  datatype Origin = Fresh | Aliased | Replayed

  /** Where one caller is; content is what it asked for when it last looked. From Working to
      Releasing it owns a reservation. */
  datatype Thread =
    | Idle
    | Looking(call: Call)
    | Replaying(call: Call, content: Id, attempt: Attempt, needsAlias: bool)
    | Working(call: Call, content: Id, reservation: Reservation)
    | Executing(call: Call, content: Id, reservation: Reservation)
    | Publishing(call: Call, content: Id, reservation: Reservation, attempt: Attempt)
    | Releasing(call: Call, content: Id, reservation: Reservation)
    | Succeeded(call: Call, content: Id, attempt: Attempt, origin: Origin)
    | Failed(call: Call)

  datatype System = System(store: Store, threads: seq<Thread>)

  /** A step of thread t, with what the world decides in it. */
  datatype Event =
    | Begin(t: nat, call: Call)
    | TryReserve(t: nat, content: Id)
    | StartProvider(t: nat)
    | Materialize(t: nat, result: Id, at: int, proposals: Id)
    | TryPublish(t: nat, ownersCommit: bool)
    | TryAlias(t: nat, ownersCommit: bool)
    | FinishReplay(t: nat)
    | Fail(t: nat)
    | Unwind(t: nat)

  predicate Owns(th: Thread) {
    th.Working? || th.Executing? || th.Publishing? || th.Releasing?
  }

  function With(sys: System, t: nat, store: Store, th: Thread): System
    requires t < |sys.threads|
  {
    System(store, sys.threads[t := th])
  }

  /** The lock-held reservation section of a looking thread. */
  function AfterReserve(sys: System, limits: Limits, t: nat, content: Id): System
    requires t < |sys.threads| && sys.threads[t].Looking?
  {
    var call := sys.threads[t].call;
    var (store, answer) := Reserve(sys.store, limits, call.key, Request(call.source, content));
    match answer
    case Reserved(r) => With(sys, t, store, Working(call, content, r))
    case Replay(a, needsAlias) => With(sys, t, store, Replaying(call, content, a, needsAlias))
    case Waiting => sys
    case Refused(_) => With(sys, t, store, Failed(call))
  }

  function AfterPublish(sys: System, t: nat, ownersCommit: bool): System
    requires t < |sys.threads| && sys.threads[t].Publishing?
  {
    var th := sys.threads[t];
    var (store, refusal) := Publish(sys.store, th.reservation, th.attempt);
    if ownersCommit && refusal.None? then With(sys, t, store, Succeeded(th.call, th.content, th.attempt, Fresh))
    else With(sys, t, sys.store, Releasing(th.call, th.content, th.reservation))
  }

  function AfterAlias(sys: System, limits: Limits, t: nat, ownersCommit: bool): System
    requires t < |sys.threads| && sys.threads[t].Replaying?
  {
    var th := sys.threads[t];
    var (store, refusal) := Alias(sys.store, limits, th.call.key, th.attempt);
    if refusal.None? && (ownersCommit || store == sys.store) then With(sys, t, store, Succeeded(th.call, th.content, th.attempt, Aliased))
    else With(sys, t, sys.store, Failed(th.call))
  }

  function AfterFailure(sys: System, t: nat): System
    requires t < |sys.threads|
  {
    match sys.threads[t]
    case Looking(call) => With(sys, t, sys.store, Failed(call))
    case Replaying(call, _, _, _) => With(sys, t, sys.store, Failed(call))
    case Working(call, content, r) => With(sys, t, sys.store, Releasing(call, content, r))
    case Executing(call, content, r) => With(sys, t, sys.store, Releasing(call, content, r))
    case Publishing(call, content, r, _) => With(sys, t, sys.store, Releasing(call, content, r))
    case _ => sys
  }

  /** An event that its thread is not ready for changes nothing. */
  function Step(sys: System, limits: Limits, e: Event): System {
    if e.t >= |sys.threads| then sys
    else
      var th := sys.threads[e.t];
      match e
      case Begin(t, call) => if th.Idle? then With(sys, t, sys.store, Looking(call)) else sys
      case TryReserve(t, content) => if th.Looking? then AfterReserve(sys, limits, t, content) else sys
      case StartProvider(t) => if th.Working? then With(sys, t, sys.store, Executing(th.call, th.content, th.reservation)) else sys
      case Materialize(t, result, at, proposals) =>
        if th.Executing? then
          With(sys, t, sys.store,
            Publishing(th.call, th.content, th.reservation, Attempt(ReceiptId(th.reservation.request, result, at), proposals)))
        else sys
      case TryPublish(t, ownersCommit) => if th.Publishing? then AfterPublish(sys, t, ownersCommit) else sys
      case TryAlias(t, ownersCommit) => if th.Replaying? && th.needsAlias then AfterAlias(sys, limits, t, ownersCommit) else sys
      case FinishReplay(t) =>
        if th.Replaying? && !th.needsAlias then With(sys, t, sys.store, Succeeded(th.call, th.content, th.attempt, Replayed)) else sys
      case Fail(t) => AfterFailure(sys, t)
      case Unwind(t) => if th.Releasing? then With(sys, t, Release(sys.store, th.reservation), Failed(th.call)) else sys
  }

  /******* Invariant *******/

  /** The thread is consistent with the store. */
  ghost predicate Fits(s: Store, th: Thread) {
    match th
    case Replaying(call, content, a, needsAlias) =>
      && Published(s.sourceAttempts, a) && AnswersCall(a, call)
      && (if needsAlias then AnswersRequest(a, call, content) else call.key in s.idempotency)
    case Succeeded(call, content, a, origin) =>
      && Published(s.sourceAttempts, a) && AnswersCall(a, call) && call.key in s.idempotency
      && (origin != Replayed ==> AnswersRequest(a, call, content))
    case Publishing(call, content, r, a) => HeldBy(s, call, content, r) && a.receipt.request == r.request
    case Working(call, content, r) => HeldBy(s, call, content, r)
    case Executing(call, content, r) => HeldBy(s, call, content, r)
    case Releasing(call, content, r) => HeldBy(s, call, content, r)
    case _ => true
  }

  predicate HeldBy(s: Store, call: Call, content: Id, r: Reservation) {
    r == Reservation(call.key, call.source, Request(call.source, content)) && Holds(s, r)
  }

  predicate AnswersCall(a: Attempt, call: Call) {
    SourceOf(a) == call.source
  }

  /** The attempt was made for just this request. */
  predicate AnswersRequest(a: Attempt, call: Call, content: Id) {
    a.receipt.request == Request(call.source, content)
  }

  ghost predicate Owned(threads: seq<Thread>, r: Reservation) {
    exists t :: 0 <= t < |threads| && Owns(threads[t]) && threads[t].reservation == r
  }

  /** No two threads own one key. */
  ghost predicate OwnersDiffer(threads: seq<Thread>) {
    forall t, u :: OwnSameKey(threads, t, u) ==> t == u
  }

  predicate OwnSameKey(threads: seq<Thread>, t: int, u: int) {
    && 0 <= t < |threads| && 0 <= u < |threads|
    && Owns(threads[t]) && Owns(threads[u]) && threads[t].call.key == threads[u].call.key
  }

  ghost predicate EachOwned(s: Store, threads: seq<Thread>) {
    forall k :: k in s.inflight ==> Owned(threads, s.inflight[k])
  }

  ghost predicate AllFit(s: Store, threads: seq<Thread>) {
    forall t :: 0 <= t < |threads| ==> Fits(s, threads[t])
  }

  ghost predicate Invariant(sys: System, limits: Limits) {
    && Sound(sys.store, limits)
    && AllFit(sys.store, sys.threads)
    && OwnersDiffer(sys.threads)
    && EachOwned(sys.store, sys.threads)
  }

  /******* Every step keeps it *******/

  lemma OwnersDifferStill(threads: seq<Thread>, t: nat, th: Thread)
    requires OwnersDiffer(threads) && t < |threads|
    requires Owns(th) ==> Owns(threads[t]) && th.call.key == threads[t].call.key
    ensures OwnersDiffer(threads[t := th])
  {
    var after := threads[t := th];
    forall u, v | OwnSameKey(after, u, v)
      ensures u == v
    {
      assert OwnSameKey(threads, u, v);
    }
  }

  lemma OwnedStill(threads: seq<Thread>, t: nat, th: Thread, r: Reservation)
    requires Owned(threads, r) && t < |threads|
    requires Owns(threads[t]) && threads[t].reservation == r ==> Owns(th) && th.reservation == r
    ensures Owned(threads[t := th], r)
  {
    var u :| 0 <= u < |threads| && Owns(threads[u]) && threads[u].reservation == r;
    assert Owns(threads[t := th][u]) && threads[t := th][u].reservation == r;
  }

  /** A thread moves on without touching the store or changing what it owns. */
  lemma MoveKeeps(sys: System, limits: Limits, t: nat, th: Thread)
    requires Invariant(sys, limits) && t < |sys.threads| && Fits(sys.store, th)
    requires Owns(th) <==> Owns(sys.threads[t])
    requires Owns(th) ==> th.call == sys.threads[t].call && th.reservation == sys.threads[t].reservation
    ensures Invariant(With(sys, t, sys.store, th), limits)
  {
    hide Sound, Fits, OwnersDiffer, Owned;
    OwnersDifferStill(sys.threads, t, th);
    forall k | k in sys.store.inflight
      ensures Owned(sys.threads[t := th], sys.store.inflight[k])
    {
      OwnedStill(sys.threads, t, th, sys.store.inflight[k]);
    }
  }

  lemma ReserveKeeps(sys: System, limits: Limits, t: nat, content: Id)
    requires Invariant(sys, limits) && t < |sys.threads| && sys.threads[t].Looking?
    ensures Invariant(AfterReserve(sys, limits, t, content), limits)
  {
    hide Sound, AllFit, OwnersDiffer, EachOwned;
    var call := sys.threads[t].call;
    var request := Request(call.source, content);
    ReserveAnswers(sys.store, limits, call.key, request);
    ReserveKeepsSound(sys.store, limits, call.key, request);
    var (s, answer) := Reserve(sys.store, limits, call.key, request);
    hide Reserve;
    match answer
    case Reserved(r) => ReservedKeeps(sys, limits, t, content, r);
    case Replay(a, needsAlias) => MoveKeeps(sys, limits, t, Replaying(call, content, a, needsAlias));
    case Waiting =>
    case Refused(_) => MoveKeeps(sys, limits, t, Failed(call));
  }

  lemma OwnerHolds(s: Store, th: Thread)
    requires Fits(s, th) && Owns(th)
    ensures HeldBy(s, th.call, th.content, th.reservation)
  {
  }

  /** A thread goes on fitting while its reservation and the published attempts remain. */
  lemma FitsStill(s: Store, s': Store, th: Thread)
    requires Fits(s, th)
    requires Owns(th) ==> Holds(s', th.reservation)
    requires s.idempotency.Keys <= s'.idempotency.Keys
    requires forall p :: p in s.sourceAttempts ==> p in s'.sourceAttempts && s'.sourceAttempts[p] == s.sourceAttempts[p]
    ensures Fits(s', th)
  {
  }

  lemma ReservedFits(sys: System, t: nat, r: Reservation)
    requires AllFit(sys.store, sys.threads) && t < |sys.threads| && r.key !in sys.store.inflight
    ensures forall u :: 0 <= u < |sys.threads| && u != t ==>
              Fits(Reserving(sys.store, r), sys.threads[u]) && (Owns(sys.threads[u]) ==> sys.threads[u].call.key != r.key)
  {
    hide Fits;
    forall u | 0 <= u < |sys.threads| && u != t
      ensures Fits(Reserving(sys.store, r), sys.threads[u]) && (Owns(sys.threads[u]) ==> sys.threads[u].call.key != r.key)
    {
      if Owns(sys.threads[u]) {
        OwnerHolds(sys.store, sys.threads[u]);
      }
      FitsStill(sys.store, Reserving(sys.store, r), sys.threads[u]);
    }
  }

  lemma ReservedOwned(sys: System, t: nat, r: Reservation, th: Thread)
    requires EachOwned(sys.store, sys.threads) && t < |sys.threads| && !Owns(sys.threads[t]) && r.key !in sys.store.inflight
    requires Owns(th) && th.reservation == r
    ensures EachOwned(Reserving(sys.store, r), sys.threads[t := th])
  {
    var after := sys.threads[t := th];
    assert Owns(after[t]) && after[t].reservation == r;
    assert Owned(after, r);
    hide Owned;
    forall k | k in sys.store.inflight
      ensures Owned(after, sys.store.inflight[k])
    {
      OwnedStill(sys.threads, t, th, sys.store.inflight[k]);
    }
  }

  lemma ReservedKeeps(sys: System, limits: Limits, t: nat, content: Id, r: Reservation)
    requires Invariant(sys, limits) && t < |sys.threads| && sys.threads[t].Looking?
    requires var call := sys.threads[t].call; r == Reservation(call.key, call.source, Request(call.source, content))
    requires r.key !in sys.store.inflight
    requires Sound(Reserving(sys.store, r), limits)
    ensures Invariant(With(sys, t, Reserving(sys.store, r), Working(sys.threads[t].call, content, r)), limits)
  {
    hide Sound, OwnersDiffer, EachOwned;
    var th := Working(sys.threads[t].call, content, r);
    assert Fits(Reserving(sys.store, r), th);
    hide Fits, Reserving;
    ReservedFits(sys, t, r);
    OwnersDifferWithNew(sys.threads, t, th);
    ReservedOwned(sys, t, r, th);
  }

  lemma OwnersDifferWithNew(threads: seq<Thread>, t: nat, th: Thread)
    requires OwnersDiffer(threads) && t < |threads| && Owns(th)
    requires forall u :: 0 <= u < |threads| && u != t && Owns(threads[u]) ==> threads[u].call.key != th.call.key
    ensures OwnersDiffer(threads[t := th])
  {
    var after := threads[t := th];
    forall u, v | OwnSameKey(after, u, v)
      ensures u == v
    {
      assert u != t && v != t ==> OwnSameKey(threads, u, v);
    }
  }

  function Reserving(s: Store, r: Reservation): Store {
    s.(inflight := s.inflight[r.key := r], inflightSources := s.inflightSources[r.source := r])
  }

  lemma LetGoFits(sys: System, t: nat, s: Store)
    requires AllFit(sys.store, sys.threads) && OwnersDiffer(sys.threads) && t < |sys.threads| && Owns(sys.threads[t])
    requires s.inflight == sys.store.inflight - {sys.threads[t].reservation.key}
    requires sys.store.idempotency.Keys <= s.idempotency.Keys
    requires forall p :: p in sys.store.sourceAttempts ==> p in s.sourceAttempts && s.sourceAttempts[p] == sys.store.sourceAttempts[p]
    ensures forall u :: 0 <= u < |sys.threads| && u != t ==> Fits(s, sys.threads[u])
  {
    hide Fits;
    OwnerHolds(sys.store, sys.threads[t]);
    forall u | 0 <= u < |sys.threads| && u != t
      ensures Fits(s, sys.threads[u])
    {
      if Owns(sys.threads[u]) {
        OwnerHolds(sys.store, sys.threads[u]);
        assert !OwnSameKey(sys.threads, t, u);
      }
      FitsStill(sys.store, s, sys.threads[u]);
    }
  }

  lemma LetGoOwned(sys: System, t: nat, s: Store, th: Thread)
    requires AllFit(sys.store, sys.threads) && EachOwned(sys.store, sys.threads) && t < |sys.threads| && Owns(sys.threads[t])
    requires SameReservations(sys.store.inflight, sys.store.inflightSources)
    requires s.inflight == sys.store.inflight - {sys.threads[t].reservation.key}
    ensures EachOwned(s, sys.threads[t := th])
  {
    hide Fits, Owned;
    forall k | k in s.inflight
      ensures Owned(sys.threads[t := th], s.inflight[k])
    {
      assert sys.store.inflight[k].key == k;
      OwnedStill(sys.threads, t, th, sys.store.inflight[k]);
    }
  }

  /** A thread gives up what it owns, and the maps with it. */
  lemma LetGo(sys: System, limits: Limits, t: nat, s: Store, th: Thread)
    requires Invariant(sys, limits) && t < |sys.threads| && Owns(sys.threads[t]) && !Owns(th)
    requires s.inflight == sys.store.inflight - {sys.threads[t].reservation.key}
    requires Sound(s, limits) && Fits(s, th)
    requires sys.store.idempotency.Keys <= s.idempotency.Keys
    requires forall p :: p in sys.store.sourceAttempts ==> p in s.sourceAttempts && s.sourceAttempts[p] == sys.store.sourceAttempts[p]
    ensures Invariant(With(sys, t, s, th), limits)
  {
    hide Fits, OwnersDiffer, EachOwned, SameReservations, OneResultPerSource, KeysBound, Disjoint, WithinLimits;
    LetGoFits(sys, t, s);
    LetGoOwned(sys, t, s, th);
    OwnersDifferStill(sys.threads, t, th);
  }

  lemma PublishKeeps(sys: System, limits: Limits, t: nat, ownersCommit: bool)
    requires Invariant(sys, limits) && t < |sys.threads| && sys.threads[t].Publishing?
    ensures Invariant(AfterPublish(sys, t, ownersCommit), limits)
  {
    hide Sound;
    var th := sys.threads[t];
    assert Fits(sys.store, th);
    var (s, refusal) := Publish(sys.store, th.reservation, th.attempt);
    PublishKeepsSound(sys.store, limits, th.reservation, th.attempt);
    if ownersCommit {
      hide Fits;
      assert Fits(s, Succeeded(th.call, th.content, th.attempt, Fresh)) by {
        PublishedFits(sys.store, th);
      }
      LetGo(sys, limits, t, s, Succeeded(th.call, th.content, th.attempt, Fresh));
    } else {
      assert Fits(sys.store, Releasing(th.call, th.content, th.reservation));
      hide Fits, AllFit, OwnersDiffer, EachOwned, Publish;
      MoveKeeps(sys, limits, t, Releasing(th.call, th.content, th.reservation));
    }
  }

  lemma PublishedFits(s: Store, th: Thread)
    requires Fits(s, th) && th.Publishing?
    ensures Fits(Publish(s, th.reservation, th.attempt).0, Succeeded(th.call, th.content, th.attempt, Fresh))
    ensures Publish(s, th.reservation, th.attempt).1 == None
  {
  }

  lemma UnwindKeeps(sys: System, limits: Limits, t: nat)
    requires Invariant(sys, limits) && t < |sys.threads| && sys.threads[t].Releasing?
    ensures Invariant(With(sys, t, Release(sys.store, sys.threads[t].reservation), Failed(sys.threads[t].call)), limits)
  {
    var th := sys.threads[t];
    assert Fits(sys.store, th);
    ReleaseKeepsSound(sys.store, limits, th.reservation);
    hide Sound;
    LetGo(sys, limits, t, Release(sys.store, th.reservation), Failed(th.call));
  }

  lemma BindingKeeps(sys: System, limits: Limits, s: Store)
    requires Invariant(sys, limits) && Sound(s, limits)
    requires s == sys.store.(idempotency := s.idempotency) && sys.store.idempotency.Keys <= s.idempotency.Keys
    ensures Invariant(System(s, sys.threads), limits)
  {
    hide Sound, Fits;
    forall u | 0 <= u < |sys.threads|
      ensures Fits(s, sys.threads[u])
    {
      if Owns(sys.threads[u]) {
        OwnerHolds(sys.store, sys.threads[u]);
      }
      FitsStill(sys.store, s, sys.threads[u]);
    }
  }

  lemma AliasKeeps(sys: System, limits: Limits, t: nat, ownersCommit: bool)
    requires Invariant(sys, limits) && t < |sys.threads| && sys.threads[t].Replaying? && sys.threads[t].needsAlias
    ensures Invariant(AfterAlias(sys, limits, t, ownersCommit), limits)
  {
    hide Sound, OwnersDiffer, EachOwned;
    var th := sys.threads[t];
    assert Fits(sys.store, th);
    hide AllFit;
    AliasKeepsSound(sys.store, limits, th.call.key, th.attempt);
    var (s, refusal) := Alias(sys.store, limits, th.call.key, th.attempt);
    assert s == sys.store.(idempotency := s.idempotency) && sys.store.idempotency.Keys <= s.idempotency.Keys;
    BindingKeeps(sys, limits, s);
    hide Invariant;
    if refusal.None? {
      MoveKeeps(System(s, sys.threads), limits, t, Succeeded(th.call, th.content, th.attempt, Aliased));
    }
    MoveKeeps(sys, limits, t, Failed(th.call));
  }

  lemma FailureKeeps(sys: System, limits: Limits, t: nat)
    requires Invariant(sys, limits) && t < |sys.threads|
    ensures Invariant(AfterFailure(sys, t), limits)
  {
    hide Sound, OwnersDiffer, EachOwned;
    var th := sys.threads[t];
    assert Fits(sys.store, th);
    hide Invariant;
    if th.Looking? || th.Replaying? {
      MoveKeeps(sys, limits, t, Failed(th.call));
    } else if th.Working? || th.Executing? || th.Publishing? {
      MoveKeeps(sys, limits, t, Releasing(th.call, th.content, th.reservation));
    }
  }

  /** A thread begins, starts its provider, has its result, or ends a replay. */
  lemma PrivateStepKeeps(sys: System, limits: Limits, e: Event)
    requires Invariant(sys, limits) && (e.Begin? || e.StartProvider? || e.Materialize? || e.FinishReplay?)
    ensures Invariant(Step(sys, limits, e), limits)
  {
    hide Sound, OwnersDiffer, EachOwned;
    if e.t < |sys.threads| {
      var th := sys.threads[e.t];
      assert Fits(sys.store, th);
      hide Invariant;
      if e.Begin? && th.Idle? {
        MoveKeeps(sys, limits, e.t, Looking(e.call));
      } else if e.StartProvider? && th.Working? {
        MoveKeeps(sys, limits, e.t, Executing(th.call, th.content, th.reservation));
      } else if e.Materialize? && th.Executing? {
        MoveKeeps(sys, limits, e.t,
          Publishing(th.call, th.content, th.reservation, Attempt(ReceiptId(th.reservation.request, e.result, e.at), e.proposals)));
      } else if e.FinishReplay? && th.Replaying? && !th.needsAlias {
        MoveKeeps(sys, limits, e.t, Succeeded(th.call, th.content, th.attempt, Replayed));
      }
    }
  }

  lemma StepKeepsInvariant(sys: System, limits: Limits, e: Event)
    requires Invariant(sys, limits)
    ensures Invariant(Step(sys, limits, e), limits)
  {
    hide Invariant, AfterReserve, AfterPublish, AfterAlias, AfterFailure;
    if e.t < |sys.threads| {
      var th := sys.threads[e.t];
      match e
      case TryReserve(t, content) => if th.Looking? { ReserveKeeps(sys, limits, t, content); }
      case TryPublish(t, ownersCommit) => if th.Publishing? { PublishKeeps(sys, limits, t, ownersCommit); }
      case TryAlias(t, ownersCommit) => if th.Replaying? && th.needsAlias { AliasKeeps(sys, limits, t, ownersCommit); }
      case Fail(t) => FailureKeeps(sys, limits, t);
      case Unwind(t) => if th.Releasing? { UnwindKeeps(sys, limits, t); }
      case _ => PrivateStepKeeps(sys, limits, e);
    }
  }
}
