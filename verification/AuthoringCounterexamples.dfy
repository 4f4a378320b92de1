/** Two runs of the authoring service that its key handling does not exclude. */
module AuthoringCounterexamples {
  import opened AuthoringRules
  import opened AuthoringRuns
  import opened AuthoringGuarantees

  /******* Pieces of a run *******/

  function Opening(t: nat, call: Call): seq<Event> {
    [Begin(t, call)] + [TryReserve(t, 0)]
  }

  function Closing(t: nat): seq<Event> {
    [StartProvider(t)] + [Materialize(t, 0, 0, 0)] + [TryPublish(t, true)]
  }

  function ReservationOf(call: Call): Reservation {
    Reservation(call.key, call.source, Request(call.source, 0))
  }

  function ResultOf(source: Source): Attempt {
    Attempt(ReceiptId(Request(source, 0), 0, 0), 0)
  }

  lemma Opens(sys: System, limits: Limits, t: nat, call: Call)
    requires t < |sys.threads| && sys.threads[t].Idle?
    ensures Run(sys, limits, Opening(t, call)) == AfterReserve(With(sys, t, sys.store, Looking(call)), limits, t, 0)
  {
    hide AfterReserve;
    RunAppend(sys, limits, [Begin(t, call)], [TryReserve(t, 0)]);
    RunOne(sys, limits, Begin(t, call));
    RunOne(With(sys, t, sys.store, Looking(call)), limits, TryReserve(t, 0));
  }

  lemma Closes(sys: System, limits: Limits, t: nat, call: Call)
    requires t < |sys.threads| && sys.threads[t] == Working(call, 0, ReservationOf(call)) && Holds(sys.store, ReservationOf(call))
    ensures Run(sys, limits, Closing(t)) ==
            With(sys, t, Publish(sys.store, ReservationOf(call), ResultOf(call.source)).0,
                 Succeeded(call, 0, ResultOf(call.source), Fresh))
  {
    var r, a := ReservationOf(call), ResultOf(call.source);
    var one, two := With(sys, t, sys.store, Executing(call, 0, r)), With(sys, t, sys.store, Publishing(call, 0, r, a));
    RunAppend(sys, limits, [StartProvider(t)] + [Materialize(t, 0, 0, 0)], [TryPublish(t, true)]);
    RunAppend(sys, limits, [StartProvider(t)], [Materialize(t, 0, 0, 0)]);
    RunOne(sys, limits, StartProvider(t));
    RunOne(one, limits, Materialize(t, 0, 0, 0));
    RunOne(two, limits, TryPublish(t, true));
    assert Step(sys, limits, StartProvider(t)) == one;
    assert Step(one, limits, Materialize(t, 0, 0, 0)) == two;
    hide Run;
  }

  const P: Source := Source(0, 1)
  const Q: Source := Source(0, 2)

  /** A run given in pieces, with the system after each piece. */
  lemma {:induction false} Pieces(limits: Limits, pieces: seq<seq<Event>>, systems: seq<System>)
    requires |systems| == |pieces| + 1
    requires forall k {:trigger pieces[k]} :: 0 <= k < |pieces| ==> Run(systems[k], limits, pieces[k]) == systems[k + 1]
    ensures Run(systems[0], limits, Joined(pieces)) == systems[|pieces|]
    decreases |pieces|
  {
    if pieces != [] {
      var n := |pieces| - 1;
      assert forall k {:trigger pieces[k]} :: 0 <= k < n ==> pieces[..n][k] == pieces[k];
      Pieces(limits, pieces[..n], systems[..n + 1]);
      RunAppend(systems[0], limits, Joined(pieces[..n]), pieces[n]);
    }
  }

  function Joined(pieces: seq<seq<Event>>): seq<Event> {
    if pieces == [] then [] else Joined(pieces[..|pieces| - 1]) + pieces[|pieces| - 1]
  }

  const A: Reservation := ReservationOf(Call(1, P))
  const B: Reservation := ReservationOf(Call(2, Q))
  const P_RESULT: Attempt := ResultOf(P)
  const Q_RESULT: Attempt := ResultOf(Q)

  /** The published attempt of P, with the reservation of key 2 on Q in flight. */
  function OneOfTwo(idempotency: map<Id, ReceiptId>): Store {
    Store(idempotency, map[2 := B], map[Q := B], map[P_RESULT.receipt := P_RESULT], map[P := P_RESULT])
  }

  /******* More keys than the limit *******/

  const TIGHT: Limits := Limits(2, 2)

  const ANSWERED: Thread := Succeeded(Call(1, P), 0, P_RESULT, Fresh)
  const AT_WORK: Thread := Working(Call(2, Q), 0, B)

  function OverLimit(n: nat): System {
    match n
    case 0 => Initial(3)
    case 1 => System(EMPTY.(inflight := map[1 := A], inflightSources := map[P := A]), [Working(Call(1, P), 0, A), Idle, Idle])
    case 2 => System(EMPTY.(inflight := map[1 := A, 2 := B], inflightSources := map[P := A, Q := B]),
                     [Working(Call(1, P), 0, A), AT_WORK, Idle])
    case 3 => System(OneOfTwo(map[1 := P_RESULT.receipt]), [ANSWERED, AT_WORK, Idle])
    case 4 => System(OneOfTwo(map[1 := P_RESULT.receipt]), [ANSWERED, AT_WORK, Replaying(Call(3, P), 0, P_RESULT, true)])
    case 5 => System(OneOfTwo(map[1 := P_RESULT.receipt, 3 := P_RESULT.receipt]),
                     [ANSWERED, AT_WORK, Succeeded(Call(3, P), 0, P_RESULT, Aliased)])
    case _ =>
      With(OverLimit(5), 1, Publish(OverLimit(5).store, B, Q_RESULT).0, Succeeded(Call(2, Q), 0, Q_RESULT, Fresh))
  }

  function OverLimitPieces(): seq<seq<Event>> {
    [Opening(0, Call(1, P)), Opening(1, Call(2, Q)), Closing(0), Opening(2, Call(3, P)), [TryAlias(2, true)], Closing(1)]
  }

  lemma OverLimitOpens()
    ensures Run(OverLimit(0), TIGHT, Opening(0, Call(1, P))) == OverLimit(1)
    ensures Run(OverLimit(1), TIGHT, Opening(1, Call(2, Q))) == OverLimit(2)
  {
    hide Run, Step;
    Opens(OverLimit(0), TIGHT, 0, Call(1, P));
    Opens(OverLimit(1), TIGHT, 1, Call(2, Q));
    assert |map[P := A]| == 1 && |map[1 := A]| == 1;
  }

  lemma OverLimitPublishes()
    ensures Run(OverLimit(2), TIGHT, Closing(0)) == OverLimit(3)
  {
    hide Run, Step;
    Closes(OverLimit(2), TIGHT, 0, Call(1, P));
    assert map[1 := A, 2 := B] - {1} == map[2 := B] && map[P := A, Q := B] - {P} == map[Q := B];
  }

  lemma OverLimitAliases()
    ensures Run(OverLimit(3), TIGHT, Opening(2, Call(3, P))) == OverLimit(4)
    ensures Run(OverLimit(4), TIGHT, [TryAlias(2, true)]) == OverLimit(5)
  {
    hide Run;
    Opens(OverLimit(3), TIGHT, 2, Call(3, P));
    RunOne(OverLimit(4), TIGHT, TryAlias(2, true));
    assert |map[1 := P_RESULT.receipt]| == 1;
  }

  lemma OverLimitBegins()
    ensures OverLimit(0) == Initial(3)
  {
  }

  lemma OverLimitEnds()
    ensures Run(OverLimit(5), TIGHT, Closing(1)) == OverLimit(6)
  {
    hide Run, Step;
    Closes(OverLimit(5), TIGHT, 1, Call(2, Q));
  }

  lemma ThreeBound()
    ensures |OverLimit(6).store.idempotency| == 3
  {
    var bound := map[1 := P_RESULT.receipt, 3 := P_RESULT.receipt];
    AddKey(bound, 2, Q_RESULT.receipt);
    assert bound.Keys == {1, 3};
    assert |bound| == |bound.Keys| == 2;
  }

  /** With a limit of two, three keys end up bound. */
  lemma LimitIsExceeded()
    ensures |Run(Initial(3), TIGHT, Joined(OverLimitPieces())).store.idempotency| == 3 > TIGHT.keys
  {
    hide Run, Step, Joined, OverLimit, Opening, Closing, Initial;
    OverLimitBegins();
    OverLimitOpens();
    OverLimitPublishes();
    OverLimitAliases();
    OverLimitEnds();
    ThreeBound();
    var systems := [OverLimit(0), OverLimit(1), OverLimit(2), OverLimit(3), OverLimit(4), OverLimit(5), OverLimit(6)];
    Pieces(TIGHT, OverLimitPieces(), systems);
  }

  /******* A key bound twice *******/

  /** One key called with two sources, the first of which is also called under another key. */
  predicate Clash(first: Call, alias: Call, rival: Call) {
    first.source == alias.source != rival.source && alias.key == rival.key != first.key
  }

  /** What the first call publishes, bound to the keys given. */
  function FirstPublished(first: Call, idempotency: map<Id, ReceiptId>): Store {
    var a := ResultOf(first.source);
    Store(idempotency, map[], map[], map[a.receipt := a], map[first.source := a])
  }

  function WithRival(s: Store, rival: Call): Store {
    s.(inflight := map[rival.key := ReservationOf(rival)], inflightSources := map[rival.source := ReservationOf(rival)])
  }

  function Rebinding(first: Call, alias: Call, rival: Call, n: nat): System {
    var a := ResultOf(first.source);
    var answered := Succeeded(first, 0, a, Fresh);
    var own := map[first.key := a.receipt];
    match n
    case 0 => Initial(3)
    case 1 => System(WithRival(EMPTY, first), [Working(first, 0, ReservationOf(first)), Idle, Idle])
    case 2 => System(FirstPublished(first, own), [answered, Idle, Idle])
    case 3 => System(FirstPublished(first, own), [answered, Replaying(alias, 0, a, true), Idle])
    case 4 => System(WithRival(FirstPublished(first, own), rival),
                     [answered, Replaying(alias, 0, a, true), Working(rival, 0, ReservationOf(rival))])
    case 5 => System(WithRival(FirstPublished(first, own[alias.key := a.receipt]), rival),
                     [answered, Succeeded(alias, 0, a, Aliased), Working(rival, 0, ReservationOf(rival))])
    case _ =>
      var before := Rebinding(first, alias, rival, 5);
      With(before, 2, Publish(before.store, ReservationOf(rival), ResultOf(rival.source)).0,
           Succeeded(rival, 0, ResultOf(rival.source), Fresh))
  }

  function RebindingPieces(first: Call, alias: Call, rival: Call): seq<seq<Event>> {
    [Opening(0, first), Closing(0), Opening(1, alias), Opening(2, rival), [TryAlias(1, true)], Closing(2)]
  }

  lemma One<K, V>(k: K, v: V)
    ensures |map[k := v]| == 1 && map[k := v] - {k} == map[]
  {
  }

  lemma RebindingOpens(first: Call, alias: Call, rival: Call, limits: Limits)
    requires Clash(first, alias, rival) && limits.attempts >= 2 && limits.keys >= 2
    ensures Run(Rebinding(first, alias, rival, 0), limits, Opening(0, first)) == Rebinding(first, alias, rival, 1)
  {
    hide Run, Step, Opening;
    Opens(Rebinding(first, alias, rival, 0), limits, 0, first);
  }

  lemma RebindingPublishes(first: Call, alias: Call, rival: Call, limits: Limits)
    requires Clash(first, alias, rival)
    ensures Run(Rebinding(first, alias, rival, 1), limits, Closing(0)) == Rebinding(first, alias, rival, 2)
  {
    hide Run, Step, Closing;
    Closes(Rebinding(first, alias, rival, 1), limits, 0, first);
    One(first.key, ReservationOf(first));
    One(first.source, ReservationOf(first));
  }

  lemma RebindingReplays(first: Call, alias: Call, rival: Call, limits: Limits)
    requires Clash(first, alias, rival)
    ensures Run(Rebinding(first, alias, rival, 2), limits, Opening(1, alias)) == Rebinding(first, alias, rival, 3)
  {
    hide Run, Step, Opening;
    Opens(Rebinding(first, alias, rival, 2), limits, 1, alias);
  }

  lemma RebindingReserves(first: Call, alias: Call, rival: Call, limits: Limits)
    requires Clash(first, alias, rival) && limits.attempts >= 2 && limits.keys >= 2
    ensures Run(Rebinding(first, alias, rival, 3), limits, Opening(2, rival)) == Rebinding(first, alias, rival, 4)
  {
    hide Run, Step, Opening;
    Opens(Rebinding(first, alias, rival, 3), limits, 2, rival);
    One(first.key, ResultOf(first.source).receipt);
    One(first.source, ResultOf(first.source));
  }

  lemma RebindingAliases(first: Call, alias: Call, rival: Call, limits: Limits)
    requires Clash(first, alias, rival) && limits.keys >= 2
    ensures Run(Rebinding(first, alias, rival, 4), limits, [TryAlias(1, true)]) == Rebinding(first, alias, rival, 5)
  {
    hide Run;
    RunOne(Rebinding(first, alias, rival, 4), limits, TryAlias(1, true));
    One(first.key, ResultOf(first.source).receipt);
  }

  lemma RebindingEnds(first: Call, alias: Call, rival: Call, limits: Limits)
    ensures Run(Rebinding(first, alias, rival, 5), limits, Closing(2)) == Rebinding(first, alias, rival, 6)
  {
    hide Run, Step, Closing;
    Closes(Rebinding(first, alias, rival, 5), limits, 2, rival);
  }

  predicate BoundTo(sys: System, key: Id, receipt: ReceiptId) {
    key in sys.store.idempotency && sys.store.idempotency[key] == receipt
  }

  predicate AnsweredWith(sys: System, t: nat, a: Attempt) {
    t < |sys.threads| && sys.threads[t].Succeeded? && sys.threads[t].attempt == a
  }

  lemma BoundTwice(first: Call, alias: Call, rival: Call)
    requires Clash(first, alias, rival)
    ensures AnsweredWith(Rebinding(first, alias, rival, 5), 1, ResultOf(first.source))
    ensures BoundTo(Rebinding(first, alias, rival, 5), alias.key, ResultOf(first.source).receipt)
    ensures BoundTo(Rebinding(first, alias, rival, 6), alias.key, ResultOf(rival.source).receipt)
    ensures ResultOf(first.source).receipt != ResultOf(rival.source).receipt
  {
  }

  /** Each piece takes the run one system on. */
  lemma RebindingRuns(first: Call, alias: Call, rival: Call, limits: Limits, n: nat)
    requires Clash(first, alias, rival) && limits.attempts >= 2 && limits.keys >= 2 && n <= 6
    ensures Run(Initial(3), limits, Joined(RebindingPieces(first, alias, rival)[..n])) == Rebinding(first, alias, rival, n)
    decreases n
  {
    RebindingBegins(first, alias, rival, limits);
    hide Run, Step, Rebinding, Opening, Closing, Initial;
    var pieces := RebindingPieces(first, alias, rival);
    if n > 0 {
      RebindingRuns(first, alias, rival, limits, n - 1);
      assert pieces[..n][..n - 1] == pieces[..n - 1] && pieces[..n][n - 1] == pieces[n - 1];
      RunAppend(Initial(3), limits, Joined(pieces[..n - 1]), pieces[n - 1]);
      hide Joined;
      RebindingStep(first, alias, rival, limits, n - 1);
    }
  }

  lemma RebindingBegins(first: Call, alias: Call, rival: Call, limits: Limits)
    ensures Run(Initial(3), limits, Joined(RebindingPieces(first, alias, rival)[..0])) == Rebinding(first, alias, rival, 0)
  {
  }

  lemma RebindingStep(first: Call, alias: Call, rival: Call, limits: Limits, n: nat)
    requires Clash(first, alias, rival) && limits.attempts >= 2 && limits.keys >= 2 && n < 6
    ensures Run(Rebinding(first, alias, rival, n), limits, RebindingPieces(first, alias, rival)[n]) ==
            Rebinding(first, alias, rival, n + 1)
  {
    hide Run, Step, Rebinding, Opening, Closing;
    match n
    case 0 => RebindingOpens(first, alias, rival, limits);
    case 1 => RebindingPublishes(first, alias, rival, limits);
    case 2 => RebindingReplays(first, alias, rival, limits);
    case 3 => RebindingReserves(first, alias, rival, limits);
    case 4 => RebindingAliases(first, alias, rival, limits);
    case _ => RebindingEnds(first, alias, rival, limits);
  }

  /** The key of such calls is bound to the one source and then to the other, after a caller was
      already answered with the first; room for two is enough. */
  lemma KeyIsRebound(first: Call, alias: Call, rival: Call, limits: Limits)
    requires Clash(first, alias, rival) && limits.attempts >= 2 && limits.keys >= 2
    ensures AnsweredWith(Run(Initial(3), limits, Joined(RebindingPieces(first, alias, rival)[..5])), 1, ResultOf(first.source))
    ensures BoundTo(Run(Initial(3), limits, Joined(RebindingPieces(first, alias, rival)[..5])), alias.key,
                    ResultOf(first.source).receipt)
    ensures BoundTo(Run(Initial(3), limits, Joined(RebindingPieces(first, alias, rival))), alias.key,
                    ResultOf(rival.source).receipt)
    ensures ResultOf(first.source).receipt != ResultOf(rival.source).receipt
  {
    hide Run, Step, Joined, Rebinding, Opening, Closing, Initial, BoundTo, AnsweredWith;
    var pieces := RebindingPieces(first, alias, rival);
    assert pieces[..6] == pieces;
    RebindingRuns(first, alias, rival, limits, 5);
    RebindingRuns(first, alias, rival, limits, 6);
    BoundTwice(first, alias, rival);
  }
}
