/** Which sets of calls can ever rebind a key, whatever their interleaving. */
module AuthoringCalls {
  import opened Wrappers
  import opened AuthoringRules
  import opened AuthoringRuns
  import opened AuthoringGuarantees
  import opened AuthoringCounterexamples

  /** Every call begun is one of these. */
  predicate Uses(events: seq<Event>, calls: set<Call>) {
    forall k :: 0 <= k < |events| && events[k].Begin? ==> events[k].call in calls
  }

  predicate Clashing(calls: set<Call>) {
    exists first, alias, rival :: first in calls && alias in calls && rival in calls && Clash(first, alias, rival)
  }

  /** Some key is called with two sources, one of them also under another key, and there is room
      for two sources and two keys. */
  predicate CanRebind(calls: set<Call>, limits: Limits) {
    limits.attempts >= 2 && limits.keys >= 2 && Clashing(calls)
  }

  /******* What a run of such calls remembers of them *******/

  predicate CallKnown(th: Thread, calls: set<Call>) {
    !th.Idle? ==> th.call in calls
  }

  /** The source is published, under a call whose key is bound. */
  ghost predicate PublishedUnder(idempotency: map<Id, ReceiptId>, calls: set<Call>, p: Source) {
    exists k :: k in idempotency && Call(k, p) in calls
  }

  ghost predicate CalledElsewhere(calls: set<Call>, call: Call) {
    exists k :: k != call.key && Call(k, call.source) in calls
  }

  ghost predicate ThreadsKnown(threads: seq<Thread>, calls: set<Call>) {
    forall t :: 0 <= t < |threads| ==> ThreadKnown(threads[t], calls)
  }

  /** A replay that needs an alias is of a source also called under another key. */
  ghost predicate ThreadKnown(th: Thread, calls: set<Call>) {
    CallKnown(th, calls) && (th.Replaying? && th.needsAlias ==> CalledElsewhere(calls, th.call))
  }

  ghost predicate InflightKnown(inflight: map<Id, Reservation>, calls: set<Call>) {
    forall k :: k in inflight ==> Call(k, inflight[k].source) in calls
  }

  ghost predicate PublishedKnown(s: Store, calls: set<Call>) {
    forall p :: p in s.sourceAttempts ==> PublishedUnder(s.idempotency, calls, p)
  }

  /** A key both bound and in flight was reached by calls that can rebind it. */
  ghost predicate OverlapKnown(s: Store, calls: set<Call>, limits: Limits) {
    forall k :: k in s.inflight && k in s.idempotency ==> CanRebind(calls, limits)
  }

  ghost predicate Traced(sys: System, calls: set<Call>, limits: Limits) {
    && ThreadsKnown(sys.threads, calls)
    && InflightKnown(sys.store.inflight, calls)
    && PublishedKnown(sys.store, calls)
    && OverlapKnown(sys.store, calls, limits)
  }

  lemma ThreadMoves(threads: seq<Thread>, calls: set<Call>, t: nat, th: Thread)
    requires ThreadsKnown(threads, calls) && t < |threads| && ThreadKnown(th, calls)
    ensures ThreadsKnown(threads[t := th], calls)
  {
    hide ThreadKnown;
  }

  /** A step that only moves its thread. */
  lemma MoveIsTraced(sys: System, calls: set<Call>, limits: Limits, t: nat, th: Thread)
    requires Traced(sys, calls, limits) && t < |sys.threads| && ThreadKnown(th, calls)
    ensures Traced(With(sys, t, sys.store, th), calls, limits)
  {
    hide ThreadKnown, InflightKnown, PublishedKnown, OverlapKnown, ThreadsKnown;
    ThreadMoves(sys.threads, calls, t, th);
  }

  lemma ReserveIsTraced(sys: System, calls: set<Call>, limits: Limits, t: nat, content: Id)
    requires Invariant(sys, limits) && Traced(sys, calls, limits) && t < |sys.threads| && sys.threads[t].Looking?
    ensures Traced(AfterReserve(sys, limits, t, content), calls, limits)
  {
    hide Sound, AllFit, OwnersDiffer, EachOwned;
    var call := sys.threads[t].call;
    assert ThreadKnown(sys.threads[t], calls);
    ReserveAnswers(sys.store, limits, call.key, Request(call.source, content));
    hide Reserve, Invariant;
    var (s, answer) := Reserve(sys.store, limits, call.key, Request(call.source, content));
    match answer
    case Reserved(r) =>
      ThreadMoves(sys.threads, calls, t, Working(call, content, r));
      hide ThreadsKnown, CanRebind;
    case Replay(a, needsAlias) =>
      assert PublishedUnder(sys.store.idempotency, calls, call.source);
      assert needsAlias ==> CalledElsewhere(calls, call);
      MoveIsTraced(sys, calls, limits, t, Replaying(call, content, a, needsAlias));
    case Waiting =>
    case Refused(_) => MoveIsTraced(sys, calls, limits, t, Failed(call));
  }

  lemma PublishIsTraced(sys: System, calls: set<Call>, limits: Limits, t: nat, ownersCommit: bool)
    requires Invariant(sys, limits) && Traced(sys, calls, limits) && t < |sys.threads| && sys.threads[t].Publishing?
    ensures Traced(AfterPublish(sys, t, ownersCommit), calls, limits)
  {
    hide Sound, OwnersDiffer, EachOwned;
    var th := sys.threads[t];
    assert Fits(sys.store, th) && ThreadKnown(th, calls);
    hide Invariant;
    var s := AfterPublish(sys, t, ownersCommit).store;
    ThreadMoves(sys.threads, calls, t, Succeeded(th.call, th.content, th.attempt, Fresh));
    MoveIsTraced(sys, calls, limits, t, Releasing(th.call, th.content, th.reservation));
    hide ThreadsKnown, CanRebind;
    forall p | p in s.sourceAttempts
      ensures PublishedUnder(s.idempotency, calls, p)
    {
      if p == th.reservation.source && ownersCommit {
        assert th.reservation.key in s.idempotency && Call(th.reservation.key, p) in calls;
      } else {
        var k :| k in sys.store.idempotency && Call(k, p) in calls;
        assert k in s.idempotency;
      }
    }
  }

  /** A key in flight that is bound by an alias: its two sources differ, and both limits have
      room for two. */
  lemma AliasOfReserved(sys: System, calls: set<Call>, limits: Limits, t: nat)
    requires Invariant(sys, limits) && Traced(sys, calls, limits) && t < |sys.threads|
    requires sys.threads[t].Replaying? && sys.threads[t].needsAlias && sys.threads[t].call.key in sys.store.inflight
    ensures CanRebind(calls, limits)
  {
    hide OwnersDiffer, EachOwned;
    var s, th := sys.store, sys.threads[t];
    assert Fits(s, th) && ThreadKnown(th, calls);
    var k :| k != th.call.key && Call(k, th.call.source) in calls;
    var rival := Call(th.call.key, s.inflight[th.call.key].source);
    assert Listed(s.inflightSources, s.inflight[th.call.key]);
    assert rival.source in s.inflightSources && rival.source !in s.sourceAttempts;
    assert Clash(Call(k, th.call.source), th.call, rival);
    assert th.attempt.receipt in s.results;
    RoomForTwo(s, limits, th.call.source, rival.source, th.call.key);
  }

  lemma RoomForTwo(s: Store, limits: Limits, p: Source, q: Source, k: Id)
    requires WithinLimits(s, limits) && p in s.sourceAttempts && q in s.inflightSources && k in s.inflight && s.idempotency != map[]
    ensures limits.attempts >= 2 && limits.keys >= 2
  {
    DropKey(s.sourceAttempts, p);
    DropKey(s.inflightSources, q);
    DropKey(s.inflight, k);
  }

  lemma AliasIsTraced(sys: System, calls: set<Call>, limits: Limits, t: nat, ownersCommit: bool)
    requires Invariant(sys, limits) && Traced(sys, calls, limits) && t < |sys.threads|
    requires sys.threads[t].Replaying? && sys.threads[t].needsAlias
    ensures Traced(AfterAlias(sys, limits, t, ownersCommit), calls, limits)
  {
    hide Invariant;
    var th := sys.threads[t];
    assert ThreadKnown(th, calls);
    if th.call.key in sys.store.inflight {
      AliasOfReserved(sys, calls, limits, t);
    }
    ThreadMoves(sys.threads, calls, t, Succeeded(th.call, th.content, th.attempt, Aliased));
    ThreadMoves(sys.threads, calls, t, Failed(th.call));
    hide ThreadsKnown, CanRebind;
    var s := AfterAlias(sys, limits, t, ownersCommit).store;
    forall p | p in s.sourceAttempts
      ensures PublishedUnder(s.idempotency, calls, p)
    {
      var k :| k in sys.store.idempotency && Call(k, p) in calls;
      assert k in s.idempotency;
    }
  }

  lemma ReleaseIsTraced(sys: System, calls: set<Call>, limits: Limits, t: nat)
    requires Traced(sys, calls, limits) && t < |sys.threads| && sys.threads[t].Releasing?
    ensures Traced(With(sys, t, Release(sys.store, sys.threads[t].reservation), Failed(sys.threads[t].call)), calls, limits)
  {
    var th := sys.threads[t];
    assert ThreadKnown(th, calls);
    ThreadMoves(sys.threads, calls, t, Failed(th.call));
    hide ThreadsKnown, PublishedUnder, CanRebind;
  }

  lemma OtherIsTraced(sys: System, calls: set<Call>, limits: Limits, e: Event)
    requires Traced(sys, calls, limits) && (e.Begin? ==> e.call in calls)
    requires !e.TryReserve? && !e.TryPublish? && !e.TryAlias? && !e.Unwind?
    ensures Traced(Step(sys, limits, e), calls, limits)
  {
    if e.t < |sys.threads| {
      var th := sys.threads[e.t];
      assert ThreadKnown(th, calls);
      var next := Step(sys, limits, e).threads[e.t];
      assert ThreadKnown(next, calls);
      MoveIsTraced(sys, calls, limits, e.t, next);
      hide Traced;
    }
  }

  lemma StepIsTraced(sys: System, calls: set<Call>, limits: Limits, e: Event)
    requires Invariant(sys, limits) && Traced(sys, calls, limits) && (e.Begin? ==> e.call in calls)
    ensures Traced(Step(sys, limits, e), calls, limits)
  {
    hide Invariant, Traced, AfterReserve, AfterPublish, AfterAlias;
    if e.t < |sys.threads| {
      var th := sys.threads[e.t];
      match e
      case TryReserve(t, content) => if th.Looking? { ReserveIsTraced(sys, calls, limits, t, content); }
      case TryPublish(t, ownersCommit) => if th.Publishing? { PublishIsTraced(sys, calls, limits, t, ownersCommit); }
      case TryAlias(t, ownersCommit) => if th.Replaying? && th.needsAlias { AliasIsTraced(sys, calls, limits, t, ownersCommit); }
      case Unwind(t) => if th.Releasing? { ReleaseIsTraced(sys, calls, limits, t); }
      case _ => OtherIsTraced(sys, calls, limits, e);
    }
  }

  lemma {:induction false} RunIsTraced(callers: nat, calls: set<Call>, limits: Limits, events: seq<Event>, k: nat)
    requires Uses(events, calls) && k <= |events|
    ensures Traced(After(callers, limits, events, k), calls, limits)
  {
    if k == 0 {
      NothingYet(callers, calls, limits, events);
    } else {
      RunIsTraced(callers, calls, limits, events, k - 1);
      NextAfter(callers, limits, events, k - 1);
      hide After, Step, Invariant, Traced;
      StepIsTraced(After(callers, limits, events, k - 1), calls, limits, events[k - 1]);
    }
  }

  lemma NothingYet(callers: nat, calls: set<Call>, limits: Limits, events: seq<Event>)
    ensures Traced(After(callers, limits, events, 0), calls, limits)
  {
    assert events[..0] == [];
  }

  /** A publication that rebinds has come about by calls that can. */
  lemma RebindingNeedsClash(sys: System, calls: set<Call>, limits: Limits, e: Event)
    requires Invariant(sys, limits) && Traced(sys, calls, limits) && Rebinds(sys, e)
    ensures CanRebind(calls, limits)
  {
    hide Sound, OwnersDiffer, EachOwned, CanRebind;
    assert Fits(sys.store, sys.threads[e.t]);
  }

  /******* And a run of calls that can *******/

  lemma {:induction false} JoinedUses(pieces: seq<seq<Event>>, calls: set<Call>)
    requires forall k :: 0 <= k < |pieces| ==> Uses(pieces[k], calls)
    ensures Uses(Joined(pieces), calls)
    decreases |pieces|
  {
    if pieces != [] {
      var n := |pieces| - 1;
      assert forall k :: 0 <= k < n ==> pieces[..n][k] == pieces[k];
      JoinedUses(pieces[..n], calls);
      hide Joined;
      UsesBoth(Joined(pieces[..n]), pieces[n], calls);
    }
  }

  lemma UsesBoth(first: seq<Event>, second: seq<Event>, calls: set<Call>)
    requires Uses(first, calls) && Uses(second, calls)
    ensures Uses(first + second, calls)
  {
  }

  lemma RebindingUses(first: Call, alias: Call, rival: Call, calls: set<Call>)
    requires first in calls && alias in calls && rival in calls
    ensures Uses(Joined(RebindingPieces(first, alias, rival)), calls)
  {
    hide Joined;
    var pieces := RebindingPieces(first, alias, rival);
    assert Uses(pieces[0], calls) && Uses(pieces[1], calls) && Uses(pieces[2], calls);
    assert Uses(pieces[3], calls) && Uses(pieces[4], calls) && Uses(pieces[5], calls);
    hide Uses;
    JoinedUses(pieces, calls);
  }

  lemma RebindingLosesBinding(first: Call, alias: Call, rival: Call, limits: Limits)
    requires Clash(first, alias, rival) && limits.attempts >= 2 && limits.keys >= 2
    ensures !BindingsKept(3, limits, Joined(RebindingPieces(first, alias, rival)))
  {
    KeyIsRebound(first, alias, rival, limits);
    var pieces := RebindingPieces(first, alias, rival);
    var events, before := Joined(pieces), Joined(pieces[..5]);
    assert events == before + pieces[5];
    hide Run, Joined, ResultOf;
    var j := |before|;
    assert events[..j] == before && events[..|events|] == events;
    assert !Extends(After(3, limits, events, j).store.idempotency, After(3, limits, events, |events|).store.idempotency);
  }

  /** However many callers make such calls, in whatever order and with whatever failures, every
      key keeps its binding for ever: if and only if the calls cannot clash within the limits. */
  lemma BindingsAlwaysKeptExactly(calls: set<Call>, limits: Limits)
    ensures (forall callers, events :: Uses(events, calls) ==> BindingsKept(callers, limits, events)) <==>
            !CanRebind(calls, limits)
  {
    hide Invariant, Traced, Rebinds, After, Uses, BindingsKept, Joined, RebindingPieces;
    if CanRebind(calls, limits) {
      var first, alias, rival :| first in calls && alias in calls && rival in calls && Clash(first, alias, rival);
      RebindingUses(first, alias, rival, calls);
      RebindingLosesBinding(first, alias, rival, limits);
    } else {
      forall callers: nat, events | Uses(events, calls)
        ensures BindingsKept(callers, limits, events)
      {
        NeverRebinds(callers, calls, limits, events);
        BindingsKeptExactly(callers, limits, events);
      }
    }
  }

  lemma NeverRebinds(callers: nat, calls: set<Call>, limits: Limits, events: seq<Event>)
    requires Uses(events, calls) && !CanRebind(calls, limits)
    ensures NothingRebinds(callers, limits, events)
  {
    hide Invariant, Traced, Rebinds, After, Uses, CanRebind;
    forall k | 0 <= k < |events|
      ensures !Rebinds(After(callers, limits, events, k), events[k])
    {
      RunIsTraced(callers, calls, limits, events, k);
      NextAfter(callers, limits, events, k);
      if Rebinds(After(callers, limits, events, k), events[k]) {
        RebindingNeedsClash(After(callers, limits, events, k), calls, limits, events[k]);
      }
    }
  }
}
