/** What callers of the authoring service can rely on, in every interleaving. */
module AuthoringGuarantees {
  import opened Wrappers
  import opened AuthoringRules
  import opened AuthoringRuns

  function Initial(callers: nat): System {
    System(EMPTY, seq(callers, _ => Idle))
  }

  function Run(sys: System, limits: Limits, events: seq<Event>): System
    decreases |events|
  {
    if events == [] then sys else Run(Step(sys, limits, events[0]), limits, events[1..])
  }

  lemma {:induction false} RunAppend(sys: System, limits: Limits, first: seq<Event>, second: seq<Event>)
    ensures Run(sys, limits, first + second) == Run(Run(sys, limits, first), limits, second)
    decreases |first|
  {
    hide Step;
    if first == [] {
      assert first + second == second;
    } else {
      RunAppend(Step(sys, limits, first[0]), limits, first[1..], second);
      assert (first + second)[1..] == first[1..] + second;
    }
  }

  lemma RunOne(sys: System, limits: Limits, e: Event)
    ensures Run(sys, limits, [e]) == Step(sys, limits, e)
  {
    hide Step;
    assert [e][1..] == [];
  }

  lemma InitialInvariant(callers: nat, limits: Limits)
    ensures Invariant(Initial(callers), limits)
  {
  }

  lemma {:induction false} RunKeepsInvariant(sys: System, limits: Limits, events: seq<Event>)
    requires Invariant(sys, limits)
    ensures Invariant(Run(sys, limits, events), limits)
    decreases |events|
  {
    hide Invariant, Step;
    if events != [] {
      StepKeepsInvariant(sys, limits, events[0]);
      RunKeepsInvariant(Step(sys, limits, events[0]), limits, events[1..]);
    }
  }

  /******* One result for each source *******/

  /** All successful callers on one source have the same receipt and proposals. */
  lemma SameAnswer(sys: System, limits: Limits, t: nat, u: nat)
    requires Invariant(sys, limits) && t < |sys.threads| && u < |sys.threads|
    requires sys.threads[t].Succeeded? && sys.threads[u].Succeeded? && sys.threads[t].call.source == sys.threads[u].call.source
    ensures sys.threads[t].attempt == sys.threads[u].attempt
  {
    hide Sound, OwnersDiffer, EachOwned;
    assert Fits(sys.store, sys.threads[t]) && Fits(sys.store, sys.threads[u]);
  }

  /** At most one provider execution is in flight for a source, and none once it is published. */
  lemma OneExecution(sys: System, limits: Limits, t: nat, u: nat)
    requires Invariant(sys, limits) && t < |sys.threads| && u < |sys.threads|
    requires Owns(sys.threads[t]) && Owns(sys.threads[u]) && sys.threads[t].call.source == sys.threads[u].call.source
    ensures t == u && sys.threads[t].call.source !in sys.store.sourceAttempts
  {
    hide EachOwned, OneResultPerSource, KeysBound, WithinLimits;
    assert Fits(sys.store, sys.threads[t]) && Fits(sys.store, sys.threads[u]);
    OwnerHolds(sys.store, sys.threads[t]);
    OwnerHolds(sys.store, sys.threads[u]);
    assert Listed(sys.store.inflightSources, sys.threads[t].reservation);
    assert Listed(sys.store.inflightSources, sys.threads[u].reservation);
    assert OwnSameKey(sys.threads, t, u);
  }

  lemma StepKeepsPublished(sys: System, limits: Limits, e: Event)
    requires Invariant(sys, limits)
    ensures Extends(sys.store.results, Step(sys, limits, e).store.results)
    ensures Extends(sys.store.sourceAttempts, Step(sys, limits, e).store.sourceAttempts)
  {
    hide OwnersDiffer, EachOwned, SameReservations, WithinLimits, KeysBound, OneResultPerSource;
    if e.TryPublish? && e.t < |sys.threads| && sys.threads[e.t].Publishing? {
      var th := sys.threads[e.t];
      assert Fits(sys.store, th);
      PublishKeepsSound(sys.store, limits, th.reservation, th.attempt);
    } else if e.TryReserve? && e.t < |sys.threads| && sys.threads[e.t].Looking? {
      var call := sys.threads[e.t].call;
      ReserveAnswers(sys.store, limits, call.key, Request(call.source, e.content));
      hide Reserve;
    }
    hide Invariant;
  }

  /** A published result is never erased or replaced, whatever else is published meanwhile. */
  lemma {:induction false} PublishedForever(sys: System, limits: Limits, events: seq<Event>)
    requires Invariant(sys, limits)
    ensures Extends(sys.store.results, Run(sys, limits, events).store.results)
    ensures Extends(sys.store.sourceAttempts, Run(sys, limits, events).store.sourceAttempts)
    decreases |events|
  {
    hide Invariant, Step;
    if events != [] {
      StepKeepsInvariant(sys, limits, events[0]);
      StepKeepsPublished(sys, limits, events[0]);
      PublishedForever(Step(sys, limits, events[0]), limits, events[1..]);
    }
  }

  /******* Failure *******/

  lemma ReservePublishesNothing(s: Store, limits: Limits, key: Id, request: Request)
    ensures var t := Reserve(s, limits, key, request).0;
            t.results == s.results && t.sourceAttempts == s.sourceAttempts && t.idempotency == s.idempotency
  {
  }

  lemma AliasPublishesNothing(s: Store, limits: Limits, key: Id, a: Attempt)
    ensures var t := Alias(s, limits, key, a).0; t.results == s.results && t.sourceAttempts == s.sourceAttempts
  {
  }

  /** Only a publication whose owners all committed changes what is published; and only that or
      a committed alias binds a key. Every other step leaves the published maps as they were. */
  lemma OnlyCommitsPublish(sys: System, limits: Limits, e: Event)
    ensures !(e.TryPublish? && e.ownersCommit) ==>
              Step(sys, limits, e).store.results == sys.store.results &&
              Step(sys, limits, e).store.sourceAttempts == sys.store.sourceAttempts
    ensures !(e.TryPublish? && e.ownersCommit) && !(e.TryAlias? && e.ownersCommit) ==>
              Step(sys, limits, e).store.idempotency == sys.store.idempotency
  {
    hide Reserve, Alias, Publish;
    if e.t < |sys.threads| {
      var th := sys.threads[e.t];
      if e.TryReserve? && th.Looking? {
        ReservePublishesNothing(sys.store, limits, th.call.key, Request(th.call.source, e.content));
      } else if e.TryAlias? && th.Replaying? {
        AliasPublishesNothing(sys.store, limits, th.call.key, th.attempt);
      }
    }
  }

  /** A caller that fails releases exactly its own reservation. */
  lemma UnwindReleasesOwn(sys: System, limits: Limits, t: nat)
    requires Invariant(sys, limits) && t < |sys.threads| && sys.threads[t].Releasing?
    ensures var r := sys.threads[t].reservation;
            && r.key in sys.store.inflight && r.source in sys.store.inflightSources
            && Step(sys, limits, Unwind(t)) == With(sys, t, Without(sys.store, r), Failed(sys.threads[t].call))
  {
    hide EachOwned, OwnersDiffer, WithinLimits, KeysBound, OneResultPerSource;
    assert Fits(sys.store, sys.threads[t]);
    assert Listed(sys.store.inflightSources, sys.threads[t].reservation);
    hide Invariant;
  }

  function Without(s: Store, r: Reservation): Store {
    s.(inflight := s.inflight - {r.key}, inflightSources := s.inflightSources - {r.source})
  }

  lemma FailingLetsGo(sys: System, limits: Limits, t: nat)
    requires t < |sys.threads| && Owns(sys.threads[t])
    ensures var th := sys.threads[t];
            Step(sys, limits, Fail(t)) == With(sys, t, sys.store, Releasing(th.call, th.content, th.reservation))
  {
    assert sys.threads[t := sys.threads[t]] == sys.threads;
  }

  /** From any point of its work a caller that fails ends without its reservation, and changes
      nothing else. */
  lemma FailureUnwinds(sys: System, limits: Limits, t: nat)
    requires Invariant(sys, limits) && t < |sys.threads| && Owns(sys.threads[t])
    ensures Run(sys, limits, [Fail(t)] + [Unwind(t)]) ==
            With(sys, t, Without(sys.store, sys.threads[t].reservation), Failed(sys.threads[t].call))
  {
    hide Invariant, Run, Step, Without;
    var failing := Step(sys, limits, Fail(t));
    FailingLetsGo(sys, limits, t);
    StepKeepsInvariant(sys, limits, Fail(t));
    UnwindReleasesOwn(failing, limits, t);
    RunAppend(sys, limits, [Fail(t)], [Unwind(t)]);
    RunOne(sys, limits, Fail(t));
    RunOne(failing, limits, Unwind(t));
  }

  /** A replay ends in success exactly when its key is bound already, or the owners commit and
      there is room; a success leaves the key bound to the answer, and a failure changes nothing. */
  lemma AliasOutcome(sys: System, limits: Limits, t: nat, ownersCommit: bool)
    requires t < |sys.threads| && sys.threads[t].Replaying? && sys.threads[t].needsAlias
    ensures var th, s, after := sys.threads[t], sys.store, Step(sys, limits, TryAlias(t, ownersCommit));
            var bound := th.call.key in s.idempotency && s.idempotency[th.call.key] == th.attempt.receipt;
            var free := th.call.key !in s.idempotency && |s.idempotency| < limits.keys && ownersCommit;
            if bound || free then
              after == With(sys, t, s.(idempotency := s.idempotency[th.call.key := th.attempt.receipt]),
                            Succeeded(th.call, th.content, th.attempt, Aliased))
            else after == With(sys, t, s, Failed(th.call))
  {
    var th, s := sys.threads[t], sys.store;
    if th.call.key in s.idempotency && s.idempotency[th.call.key] == th.attempt.receipt {
      assert s.idempotency[th.call.key := th.attempt.receipt] == s.idempotency;
    } else if th.call.key !in s.idempotency {
      assert th.call.key in s.idempotency[th.call.key := th.attempt.receipt];
    }
  }

  /** The answer of a bound key needs nobody. */
  lemma ReplayOutcome(sys: System, limits: Limits, t: nat)
    requires t < |sys.threads| && sys.threads[t].Replaying? && !sys.threads[t].needsAlias
    ensures var th := sys.threads[t];
            Step(sys, limits, FinishReplay(t)) == With(sys, t, sys.store, Succeeded(th.call, th.content, th.attempt, Replayed))
    ensures forall ownersCommit :: Step(sys, limits, TryAlias(t, ownersCommit)) == sys
  {
  }

  /** Every reservation belongs to a call that has not returned. */
  lemma ReservationHasOwner(sys: System, limits: Limits, k: Id) returns (t: nat)
    requires Invariant(sys, limits) && k in sys.store.inflight
    ensures t < |sys.threads| && Owns(sys.threads[t]) && sys.threads[t].call.key == k
    ensures sys.threads[t].reservation == sys.store.inflight[k]
  {
    hide OwnersDiffer, WithinLimits, KeysBound, OneResultPerSource;
    assert Owned(sys.threads, sys.store.inflight[k]);
    t :| 0 <= t < |sys.threads| && Owns(sys.threads[t]) && sys.threads[t].reservation == sys.store.inflight[k];
    assert Fits(sys.store, sys.threads[t]);
  }

  /** So once every call has returned none is left. */
  lemma NothingLeftBehind(sys: System, limits: Limits)
    requires Invariant(sys, limits) && forall t :: 0 <= t < |sys.threads| ==> !Owns(sys.threads[t])
    ensures forall k :: k !in sys.store.inflight
    ensures forall p :: p !in sys.store.inflightSources
  {
    if p :| p in sys.store.inflightSources {
      var k := sys.store.inflightSources[p].key;
      var t := ReservationHasOwner(sys, limits, k);
    }
    if k :| k in sys.store.inflight {
      var t := ReservationHasOwner(sys, limits, k);
    }
  }

  /******* Keys *******/

  /** Published and reserved sources stay within their limit; bound and in-flight keys, below
      twice theirs. */
  lemma KeysBelowTwiceLimit(sys: System, limits: Limits)
    requires Invariant(sys, limits)
    ensures |sys.store.sourceAttempts| + |sys.store.inflightSources| <= limits.attempts
    ensures |sys.store.idempotency| + |sys.store.inflight| <= if limits.keys == 0 then 0 else 2 * limits.keys - 1
  {
    hide SameReservations, OneResultPerSource, KeysBound, Disjoint, AllFit, OwnersDiffer, EachOwned;
    assert sys.store.idempotency == map[] ==> |sys.store.idempotency| == 0;
    assert sys.store.idempotency != map[] ==> |sys.store.idempotency| > 0;
  }

  /** Bound keys and keys in flight. */
  function Keys(s: Store): nat {
    |s.idempotency| + |s.inflight|
  }

  /** The event is an alias that binds a key, by what its caller and the owners have decided. */
  predicate AliasBinds(sys: System, limits: Limits, e: Event) {
    && e.TryAlias? && e.ownersCommit && e.t < |sys.threads| && sys.threads[e.t].Replaying? && sys.threads[e.t].needsAlias
    && sys.threads[e.t].call.key !in sys.store.idempotency && |sys.store.idempotency| < limits.keys
  }

  lemma AliasAddsKey(sys: System, limits: Limits, e: Event)
    requires AliasBinds(sys, limits, e)
    ensures Keys(Step(sys, limits, e).store) == Keys(sys.store) + 1
  {
    var th := sys.threads[e.t];
    AddKey(sys.store.idempotency, th.call.key, th.attempt.receipt);
  }

  lemma PublishingAddsNone(sys: System, limits: Limits, t: nat, ownersCommit: bool)
    requires Invariant(sys, limits) && t < |sys.threads| && sys.threads[t].Publishing?
    ensures Keys(AfterPublish(sys, t, ownersCommit).store) <= Keys(sys.store)
  {
    hide Sound, OwnersDiffer, EachOwned;
    var th := sys.threads[t];
    assert Fits(sys.store, th);
    AddKey(sys.store.idempotency, th.reservation.key, th.attempt.receipt);
    DropKey(sys.store.inflight, th.reservation.key);
  }

  lemma ReservingFits(sys: System, limits: Limits, t: nat, content: Id)
    requires Invariant(sys, limits) && t < |sys.threads| && sys.threads[t].Looking?
    ensures var s := AfterReserve(sys, limits, t, content).store; Keys(s) <= Keys(sys.store) || Keys(s) <= limits.keys
  {
    hide Sound, AllFit, OwnersDiffer, EachOwned;
    var call := sys.threads[t].call;
    ReserveAnswers(sys.store, limits, call.key, Request(call.source, content));
    hide Reserve;
    AddKey(sys.store.inflight, call.key, Reservation(call.key, call.source, Request(call.source, content)));
  }

  /** Only an alias that binds can take the keys past their limit. */
  lemma OtherStepsFit(sys: System, limits: Limits, e: Event)
    requires Invariant(sys, limits) && !AliasBinds(sys, limits, e)
    ensures Keys(Step(sys, limits, e).store) <= Keys(sys.store) || Keys(Step(sys, limits, e).store) <= limits.keys
  {
    hide Invariant, AfterReserve, AfterPublish;
    if e.t < |sys.threads| {
      var th := sys.threads[e.t];
      if e.TryReserve? && th.Looking? {
        ReservingFits(sys, limits, e.t, e.content);
      } else if e.TryPublish? && th.Publishing? {
        PublishingAddsNone(sys, limits, e.t, e.ownersCommit);
      } else if e.Unwind? && th.Releasing? {
        DropKey(sys.store.inflight, th.reservation.key);
      }
    }
  }

  /** The system after the first k events of a run. */
  function After(callers: nat, limits: Limits, events: seq<Event>, k: nat): System
    requires k <= |events|
  {
    Run(Initial(callers), limits, events[..k])
  }

  lemma NextAfter(callers: nat, limits: Limits, events: seq<Event>, k: nat)
    requires k < |events|
    ensures After(callers, limits, events, k + 1) == Step(After(callers, limits, events, k), limits, events[k])
    ensures Invariant(After(callers, limits, events, k), limits)
  {
    hide Run, Step, Invariant, Initial;
    InitialInvariant(callers, limits);
    RunKeepsInvariant(Initial(callers), limits, events[..k]);
    assert events[..k + 1] == events[..k] + [events[k]];
    RunAppend(Initial(callers), limits, events[..k], [events[k]]);
    RunOne(After(callers, limits, events, k), limits, events[k]);
  }

  ghost predicate KeysStayWithin(callers: nat, limits: Limits, events: seq<Event>) {
    forall k :: 0 <= k <= |events| ==> Keys(After(callers, limits, events, k).store) <= limits.keys
  }

  /** Every alias that binds a key would have passed the test that reservations make. */
  ghost predicate AliasesPassTest(callers: nat, limits: Limits, events: seq<Event>) {
    forall k :: 0 <= k < |events| && AliasBinds(After(callers, limits, events, k), limits, events[k]) ==>
      Keys(After(callers, limits, events, k).store) < limits.keys
  }

  /** All through a run bound keys and keys in flight together stay within the limit if and only
      if every alias that binds one finds room as a reservation would. */
  lemma KeysStayWithinExactly(callers: nat, limits: Limits, events: seq<Event>)
    ensures KeysStayWithin(callers, limits, events) <==> AliasesPassTest(callers, limits, events)
  {
    hide After, Step, AliasBinds, Keys, Invariant;
    if KeysStayWithin(callers, limits, events) {
      forall k | 0 <= k < |events| && AliasBinds(After(callers, limits, events, k), limits, events[k])
        ensures Keys(After(callers, limits, events, k).store) < limits.keys
      {
        NextAfter(callers, limits, events, k);
        AliasAddsKey(After(callers, limits, events, k), limits, events[k]);
        assert Keys(After(callers, limits, events, k + 1).store) <= limits.keys;
      }
    }
    if AliasesPassTest(callers, limits, events) {
      forall k | 0 <= k <= |events|
        ensures Keys(After(callers, limits, events, k).store) <= limits.keys
      {
        KeysFitAfter(callers, limits, events, k);
      }
    }
  }

  lemma NoKeysYet(callers: nat, limits: Limits, events: seq<Event>)
    ensures Keys(After(callers, limits, events, 0).store) == 0
  {
    assert events[..0] == [];
  }

  lemma {:induction false} KeysFitAfter(callers: nat, limits: Limits, events: seq<Event>, k: nat)
    requires AliasesPassTest(callers, limits, events) && k <= |events|
    ensures Keys(After(callers, limits, events, k).store) <= limits.keys
  {
    hide After, Step, AliasBinds, Keys, Invariant;
    if k == 0 {
      NoKeysYet(callers, limits, events);
    } else {
      KeysFitAfter(callers, limits, events, k - 1);
      NextAfter(callers, limits, events, k - 1);
      var before := After(callers, limits, events, k - 1);
      if AliasBinds(before, limits, events[k - 1]) {
        AliasAddsKey(before, limits, events[k - 1]);
      } else {
        OtherStepsFit(before, limits, events[k - 1]);
      }
    }
  }

  /** The event is a publication that binds a key not bound before. */
  predicate PublishBinds(sys: System, e: Event) {
    && e.TryPublish? && e.ownersCommit && e.t < |sys.threads| && sys.threads[e.t].Publishing?
    && sys.threads[e.t].reservation.key !in sys.store.idempotency
  }

  lemma PublishingBindsOne(sys: System, limits: Limits, t: nat)
    requires Invariant(sys, limits) && t < |sys.threads| && sys.threads[t].Publishing?
    ensures |AfterPublish(sys, t, true).store.idempotency| ==
            |sys.store.idempotency| + if sys.threads[t].reservation.key in sys.store.idempotency then 0 else 1
  {
    hide Sound, OwnersDiffer, EachOwned;
    var th := sys.threads[t];
    assert Fits(sys.store, th);
    AddKey(sys.store.idempotency, th.reservation.key, th.attempt.receipt);
  }

  /** Aliases test the number of bound keys, and publications do not. */
  lemma StepBindsKeys(sys: System, limits: Limits, e: Event)
    requires Invariant(sys, limits)
    ensures var s, s' := sys.store, Step(sys, limits, e).store;
            && (PublishBinds(sys, e) ==> |s'.idempotency| == |s.idempotency| + 1)
            && (!PublishBinds(sys, e) ==> |s'.idempotency| <= |s.idempotency| || |s'.idempotency| <= limits.keys)
  {
    hide Invariant, AfterPublish, AfterReserve;
    OnlyCommitsPublish(sys, limits, e);
    if e.t < |sys.threads| {
      var th := sys.threads[e.t];
      if e.TryPublish? && e.ownersCommit && th.Publishing? {
        PublishingBindsOne(sys, limits, e.t);
      } else if e.TryAlias? && th.Replaying? {
        AddKey(sys.store.idempotency, th.call.key, th.attempt.receipt);
      }
    }
  }

  ghost predicate BoundKeysStayWithin(callers: nat, limits: Limits, events: seq<Event>) {
    forall k :: 0 <= k <= |events| ==> |After(callers, limits, events, k).store.idempotency| <= limits.keys
  }

  ghost predicate PublicationsFindRoom(callers: nat, limits: Limits, events: seq<Event>) {
    forall k :: 0 <= k < |events| && PublishBinds(After(callers, limits, events, k), events[k]) ==>
      |After(callers, limits, events, k).store.idempotency| < limits.keys
  }

  /** All through a run the bound keys, apart from those in flight, stay within the limit if and
      only if every publication that binds a key finds fewer bound than the limit. */
  lemma BoundKeysStayWithinExactly(callers: nat, limits: Limits, events: seq<Event>)
    ensures BoundKeysStayWithin(callers, limits, events) <==> PublicationsFindRoom(callers, limits, events)
  {
    hide After, Step, PublishBinds, Invariant;
    if BoundKeysStayWithin(callers, limits, events) {
      forall k | 0 <= k < |events| && PublishBinds(After(callers, limits, events, k), events[k])
        ensures |After(callers, limits, events, k).store.idempotency| < limits.keys
      {
        NextAfter(callers, limits, events, k);
        StepBindsKeys(After(callers, limits, events, k), limits, events[k]);
        assert |After(callers, limits, events, k + 1).store.idempotency| <= limits.keys;
      }
    }
    if PublicationsFindRoom(callers, limits, events) {
      forall k | 0 <= k <= |events|
        ensures |After(callers, limits, events, k).store.idempotency| <= limits.keys
      {
        BoundKeysFitAfter(callers, limits, events, k);
      }
    }
  }

  lemma {:induction false} BoundKeysFitAfter(callers: nat, limits: Limits, events: seq<Event>, k: nat)
    requires PublicationsFindRoom(callers, limits, events) && k <= |events|
    ensures |After(callers, limits, events, k).store.idempotency| <= limits.keys
  {
    hide After, Step, PublishBinds, Invariant;
    if k == 0 {
      NoKeysYet(callers, limits, events);
    } else {
      BoundKeysFitAfter(callers, limits, events, k - 1);
      NextAfter(callers, limits, events, k - 1);
      StepBindsKeys(After(callers, limits, events, k - 1), limits, events[k - 1]);
    }
  }

  predicate CallAgrees(th: Thread, owner: Id -> Source) {
    !th.Idle? ==> th.call.source == owner(th.call.key)
  }

  predicate KeyAgrees(s: Store, owner: Id -> Source, k: Id)
    requires k in s.idempotency
  {
    s.idempotency[k] in s.results && SourceOf(s.results[s.idempotency[k]]) == owner(k)
  }

  /** Each key is used with the one source that owner names. */
  ghost predicate OneSourcePerKey(sys: System, owner: Id -> Source) {
    && (forall t :: 0 <= t < |sys.threads| ==> CallAgrees(sys.threads[t], owner))
    && (forall k :: k in sys.store.idempotency ==> KeyAgrees(sys.store, owner, k))
  }

  predicate Agrees(e: Event, owner: Id -> Source) {
    e.Begin? ==> e.call.source == owner(e.call.key)
  }

  /** No step changes the call a thread is making. */
  lemma StepKeepsCalls(sys: System, limits: Limits, e: Event)
    ensures |Step(sys, limits, e).threads| == |sys.threads|
    ensures forall t :: 0 <= t < |sys.threads| ==>
              || Step(sys, limits, e).threads[t] == sys.threads[t]
              || (!Step(sys, limits, e).threads[t].Idle? &&
                  Step(sys, limits, e).threads[t].call == if e.Begin? then e.call else sys.threads[t].call)
    ensures forall t :: 0 <= t < |sys.threads| && sys.threads[t].Idle? && !e.Begin? ==>
              Step(sys, limits, e).threads[t] == sys.threads[t]
  {
    hide Reserve, Publish, Alias, Release;
  }

  lemma StepKeepsCallsAgreeing(sys: System, limits: Limits, owner: Id -> Source, e: Event)
    requires Agrees(e, owner) && forall t :: 0 <= t < |sys.threads| ==> CallAgrees(sys.threads[t], owner)
    ensures forall t :: 0 <= t < |Step(sys, limits, e).threads| ==> CallAgrees(Step(sys, limits, e).threads[t], owner)
  {
    hide Step;
    StepKeepsCalls(sys, limits, e);
    var after := Step(sys, limits, e).threads;
    forall t | 0 <= t < |after|
      ensures CallAgrees(after[t], owner)
    {
      assert CallAgrees(sys.threads[t], owner);
    }
  }

  lemma KeyAgreesStill(s: Store, s': Store, owner: Id -> Source, k: Id)
    requires k in s.idempotency && KeyAgrees(s, owner, k) && Extends(s.results, s'.results)
    requires k in s'.idempotency && s'.idempotency[k] == s.idempotency[k]
    ensures KeyAgrees(s', owner, k)
  {
  }

  /** The step binds no key, or binds an unbound key to a result of its own source. */
  ghost predicate BindsFresh(s: Store, s': Store, owner: Id -> Source) {
    s'.idempotency == s.idempotency || exists k :: Binds(s, s', owner, k)
  }

  ghost predicate Binds(s: Store, s': Store, owner: Id -> Source, k: Id) {
    && k !in s.idempotency && k in s'.idempotency
    && s'.idempotency == s.idempotency[k := s'.idempotency[k]]
    && KeyAgrees(s', owner, k)
  }

  lemma StepBindsFresh(sys: System, limits: Limits, owner: Id -> Source, e: Event)
    requires Invariant(sys, limits) && OneSourcePerKey(sys, owner)
    ensures BindsFresh(sys.store, Step(sys, limits, e).store, owner)
  {
    hide Invariant, Fits;
    OnlyCommitsPublish(sys, limits, e);
    if e.t < |sys.threads| {
      var th := sys.threads[e.t];
      assert CallAgrees(th, owner);
      if e.TryPublish? && th.Publishing? {
        PublishKeepsKeys(sys, limits, owner, e.t);
        assert Step(sys, limits, e).store == sys.store || Binds(sys.store, Step(sys, limits, e).store, owner, th.reservation.key);
      } else if e.TryAlias? && th.Replaying? {
        ReplayIsPublished(sys, limits, e.t);
        assert Step(sys, limits, e).store == sys.store || Binds(sys.store, Step(sys, limits, e).store, owner, th.call.key);
      }
    }
  }

  lemma ReplayIsPublished(sys: System, limits: Limits, t: nat)
    requires Invariant(sys, limits) && t < |sys.threads| && sys.threads[t].Replaying?
    ensures sys.threads[t].attempt.receipt in sys.store.results
    ensures sys.store.results[sys.threads[t].attempt.receipt] == sys.threads[t].attempt
    ensures SourceOf(sys.threads[t].attempt) == sys.threads[t].call.source
  {
    hide OwnersDiffer, EachOwned, SameReservations, WithinLimits, KeysBound;
    assert Fits(sys.store, sys.threads[t]);
  }

  /** Under that discipline a bound key keeps its receipt. */
  lemma StepKeepsKeys(sys: System, limits: Limits, owner: Id -> Source, e: Event)
    requires Invariant(sys, limits) && OneSourcePerKey(sys, owner) && Agrees(e, owner)
    ensures OneSourcePerKey(Step(sys, limits, e), owner)
    ensures Extends(sys.store.idempotency, Step(sys, limits, e).store.idempotency)
  {
    hide Invariant, Step, CallAgrees, KeyAgrees;
    StepKeepsCallsAgreeing(sys, limits, owner, e);
    StepKeepsPublished(sys, limits, e);
    StepBindsFresh(sys, limits, owner, e);
    var s, s' := sys.store, Step(sys, limits, e).store;
    forall k | k in s.idempotency
      ensures k in s'.idempotency && s'.idempotency[k] == s.idempotency[k] && KeyAgrees(s', owner, k)
    {
      KeyAgreesStill(s, s', owner, k);
    }
  }

  /** The key of a publication is unbound, since its source was not published yet. */
  lemma PublishKeepsKeys(sys: System, limits: Limits, owner: Id -> Source, t: nat)
    requires Invariant(sys, limits) && OneSourcePerKey(sys, owner) && t < |sys.threads| && sys.threads[t].Publishing?
    ensures sys.threads[t].reservation.key !in sys.store.idempotency
    ensures sys.threads[t].attempt.receipt !in sys.store.results
    ensures SourceOf(sys.threads[t].attempt) == owner(sys.threads[t].reservation.key)
  {
    hide OwnersDiffer, EachOwned, WithinLimits, KeysBound;
    var th := sys.threads[t];
    assert Fits(sys.store, th) && CallAgrees(th, owner);
    PublishKeepsSound(sys.store, limits, th.reservation, th.attempt);
    var k := th.reservation.key;
    assert k in sys.store.idempotency ==>
        KeyAgrees(sys.store, owner, k) && Published(sys.store.sourceAttempts, sys.store.results[sys.store.idempotency[k]]);
  }

  lemma {:induction false} KeysStay(sys: System, limits: Limits, owner: Id -> Source, events: seq<Event>)
    requires Invariant(sys, limits) && OneSourcePerKey(sys, owner)
    requires forall e :: e in events ==> Agrees(e, owner)
    ensures Extends(sys.store.idempotency, Run(sys, limits, events).store.idempotency)
    ensures OneSourcePerKey(Run(sys, limits, events), owner)
    decreases |events|
  {
    hide Invariant, Step, OneSourcePerKey, Agrees;
    if events != [] {
      StepKeepsInvariant(sys, limits, events[0]);
      StepKeepsKeys(sys, limits, owner, events[0]);
      KeysStay(Step(sys, limits, events[0]), limits, owner, events[1..]);
    }
  }

  /** When every call uses a key with the one source that owner names, what a key is bound to at
      any time it is bound to ever after. */
  lemma KeysArePermanent(callers: nat, limits: Limits, owner: Id -> Source, before: seq<Event>, after: seq<Event>)
    requires forall e :: e in before || e in after ==> Agrees(e, owner)
    ensures Extends(Run(Initial(callers), limits, before).store.idempotency,
                    Run(Run(Initial(callers), limits, before), limits, after).store.idempotency)
  {
    InitialInvariant(callers, limits);
    RunKeepsInvariant(Initial(callers), limits, before);
    hide Invariant, Run;
    KeysStay(Initial(callers), limits, owner, before);
    KeysStay(Run(Initial(callers), limits, before), limits, owner, after);
  }

  /** The event is a publication that finds its own key bound already. */
  predicate Rebinds(sys: System, e: Event) {
    && e.TryPublish? && e.ownersCommit && e.t < |sys.threads| && sys.threads[e.t].Publishing?
    && sys.threads[e.t].reservation.key in sys.store.idempotency
  }

  lemma PublishingKeepsBindings(sys: System, limits: Limits, t: nat)
    requires Invariant(sys, limits) && t < |sys.threads| && sys.threads[t].Publishing?
    ensures Extends(sys.store.idempotency, AfterPublish(sys, t, true).store.idempotency) <==>
            sys.threads[t].reservation.key !in sys.store.idempotency
  {
    hide Sound, OwnersDiffer, EachOwned;
    var th := sys.threads[t];
    assert Fits(sys.store, th);
    PublishRebinds(sys.store, limits, th.reservation, th.attempt);
    hide Invariant, Publish;
  }

  lemma StepKeepsBindings(sys: System, limits: Limits, e: Event)
    requires Invariant(sys, limits)
    ensures Extends(sys.store.idempotency, Step(sys, limits, e).store.idempotency) <==> !Rebinds(sys, e)
  {
    hide Invariant, AfterPublish, AfterReserve;
    OnlyCommitsPublish(sys, limits, e);
    if e.TryPublish? && e.ownersCommit && e.t < |sys.threads| && sys.threads[e.t].Publishing? {
      PublishingKeepsBindings(sys, limits, e.t);
    }
  }

  ghost predicate BindingsKept(callers: nat, limits: Limits, events: seq<Event>) {
    forall j, k :: 0 <= j <= k <= |events| ==>
      Extends(After(callers, limits, events, j).store.idempotency, After(callers, limits, events, k).store.idempotency)
  }

  ghost predicate NothingRebinds(callers: nat, limits: Limits, events: seq<Event>) {
    forall k :: 0 <= k < |events| ==> !Rebinds(After(callers, limits, events, k), events[k])
  }

  /** All through a run every key keeps its binding if and only if every publication finds its
      own key unbound. */
  lemma BindingsKeptExactly(callers: nat, limits: Limits, events: seq<Event>)
    ensures BindingsKept(callers, limits, events) <==> NothingRebinds(callers, limits, events)
  {
    hide After, Step, Rebinds, Invariant, Extends;
    if BindingsKept(callers, limits, events) {
      forall k | 0 <= k < |events|
        ensures !Rebinds(After(callers, limits, events, k), events[k])
      {
        NextAfter(callers, limits, events, k);
        StepKeepsBindings(After(callers, limits, events, k), limits, events[k]);
        assert Extends(After(callers, limits, events, k).store.idempotency,
                       After(callers, limits, events, k + 1).store.idempotency);
      }
    }
    if NothingRebinds(callers, limits, events) {
      forall j, k | 0 <= j <= k <= |events|
        ensures Extends(After(callers, limits, events, j).store.idempotency,
                        After(callers, limits, events, k).store.idempotency)
      {
        KeptBetween(callers, limits, events, j, k);
      }
    }
  }

  lemma {:induction false} KeptBetween(callers: nat, limits: Limits, events: seq<Event>, j: nat, k: nat)
    requires NothingRebinds(callers, limits, events) && j <= k <= |events|
    ensures Extends(After(callers, limits, events, j).store.idempotency, After(callers, limits, events, k).store.idempotency)
    decreases k - j
  {
    hide After, Step, Rebinds, Invariant;
    if j < k {
      KeptBetween(callers, limits, events, j, k - 1);
      NextAfter(callers, limits, events, k - 1);
      StepKeepsBindings(After(callers, limits, events, k - 1), limits, events[k - 1]);
    }
  }

  /** What holds after any interleaving whatever, of any number of callers. */
  ghost predicate Guaranteed(sys: System, limits: Limits) {
    && (forall t, u :: AnsweredAlike(sys, t, u))
    && (forall t, u :: WorkApart(sys, t, u))
    && (forall t :: OwnRequest(sys, t))
    && |sys.store.sourceAttempts| + |sys.store.inflightSources| <= limits.attempts
    && |sys.store.idempotency| + |sys.store.inflight| <= (if limits.keys == 0 then 0 else 2 * limits.keys - 1)
    && ((forall t :: 0 <= t < |sys.threads| ==> !Owns(sys.threads[t])) ==> forall k :: k !in sys.store.inflight)
  }

  /** Two successes on one source had one answer. */
  predicate AnsweredAlike(sys: System, t: nat, u: nat) {
    t < |sys.threads| && u < |sys.threads| && sys.threads[t].Succeeded? && sys.threads[u].Succeeded?
    && sys.threads[t].call.source == sys.threads[u].call.source
    ==> sys.threads[t].attempt == sys.threads[u].attempt
  }

  /** Two callers at work have different sources, neither of them published. */
  predicate WorkApart(sys: System, t: nat, u: nat) {
    t < |sys.threads| && u < |sys.threads| && Owns(sys.threads[t]) && Owns(sys.threads[u])
    && sys.threads[t].call.source == sys.threads[u].call.source
    ==> t == u && sys.threads[t].call.source !in sys.store.sourceAttempts
  }

  /** What a caller holds, publishes or binds its key to is for the very request it asked; only a
      key bound already is answered for its source alone. The key of a success is bound. */
  predicate OwnRequest(sys: System, t: nat) {
    t < |sys.threads| ==>
      match sys.threads[t]
      case Succeeded(call, content, a, origin) =>
        && AnswersCall(a, call) && call.key in sys.store.idempotency
        && (origin != Replayed ==> AnswersRequest(a, call, content))
      case Replaying(call, content, a, needsAlias) => AnswersCall(a, call) && (needsAlias ==> AnswersRequest(a, call, content))
      case th => Owns(th) ==> th.reservation == Reservation(th.call.key, th.call.source, Request(th.call.source, th.content))
  }

  lemma AsksForOwn(sys: System, limits: Limits, t: nat)
    requires Invariant(sys, limits)
    ensures OwnRequest(sys, t)
  {
    hide Sound, OwnersDiffer, EachOwned;
    assert t < |sys.threads| ==> Fits(sys.store, sys.threads[t]);
  }

  lemma EveryInterleaving(callers: nat, limits: Limits, events: seq<Event>)
    ensures Guaranteed(Run(Initial(callers), limits, events), limits)
  {
    InitialInvariant(callers, limits);
    RunKeepsInvariant(Initial(callers), limits, events);
    var sys := Run(Initial(callers), limits, events);
    hide Invariant, Run;
    forall t: nat, u: nat
      ensures AnsweredAlike(sys, t, u) && WorkApart(sys, t, u)
    {
      if t < |sys.threads| && u < |sys.threads| {
        if sys.threads[t].Succeeded? && sys.threads[u].Succeeded? && sys.threads[t].call.source == sys.threads[u].call.source {
          SameAnswer(sys, limits, t, u);
        }
        if Owns(sys.threads[t]) && Owns(sys.threads[u]) && sys.threads[t].call.source == sys.threads[u].call.source {
          OneExecution(sys, limits, t, u);
        }
      }
    }
    forall t: nat
      ensures OwnRequest(sys, t)
    {
      AsksForOwn(sys, limits, t);
    }
    KeysBelowTwiceLimit(sys, limits);
    if forall t :: 0 <= t < |sys.threads| ==> !Owns(sys.threads[t]) {
      NothingLeftBehind(sys, limits);
    }
  }
}
