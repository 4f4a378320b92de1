/** The lock-held sections of the assisted-authoring service, as steps on its five maps. */
module AuthoringRules {
  import opened Wrappers

  type Id = int

  /** A source of a POC; its receipt id is derived from its id, so one stands for both. */
  datatype Source = Source(poc: Id, id: Id)

  /** The request digest covers the source and everything else the request depends on. */
  datatype Request = Request(source: Source, content: Id)

  /** The receipt digest covers the request, the provider's result and the time. */
  datatype ReceiptId = ReceiptId(request: Request, result: Id, at: int)

  /** A published attempt: its receipt and proposals follow from the receipt id. */
  datatype Attempt = Attempt(receipt: ReceiptId, proposals: Id)

  datatype Reservation = Reservation(key: Id, source: Source, request: Request)

  datatype Store = Store(
    idempotency: map<Id, ReceiptId>,
    inflight: map<Id, Reservation>,
    inflightSources: map<Source, Reservation>,
    results: map<ReceiptId, Attempt>,
    sourceAttempts: map<Source, Attempt>)

  datatype Limits = Limits(attempts: nat, keys: nat)

  datatype Refusal = StateUnavailable | IdempotencyConflict | AttemptConflict | CapacityExceeded

  datatype Reserving =
    | Reserved(reservation: Reservation)
    | Replay(attempt: Attempt, needsAlias: bool)
    | Waiting
    | Refused(refusal: Refusal)

  const EMPTY: Store := Store(map[], map[], map[], map[], map[])

  function SourceOf(a: Attempt): Source {
    a.receipt.request.source
  }

  /** Replay, wait, refuse or reserve. */
  function Reserve(s: Store, limits: Limits, key: Id, request: Request): (Store, Reserving) {
    var source := request.source;
    if key in s.idempotency then
      if s.idempotency[key] !in s.results then (s, Refused(StateUnavailable))
      else if SourceOf(s.results[s.idempotency[key]]) != source then (s, Refused(IdempotencyConflict))
      else (s, Replay(s.results[s.idempotency[key]], false))
    else if key in s.inflight then
      if s.inflight[key].source != source then (s, Refused(IdempotencyConflict)) else (s, Waiting)
    else if source in s.inflightSources then
      if s.inflightSources[source].request != request then (s, Refused(AttemptConflict)) else (s, Waiting)
    else if source in s.sourceAttempts then
      if s.sourceAttempts[source].receipt.request != request then (s, Refused(AttemptConflict))
      else (s, Replay(s.sourceAttempts[source], true))
    else if |s.sourceAttempts| + |s.inflightSources| >= limits.attempts then (s, Refused(CapacityExceeded))
    else if |s.idempotency| + |s.inflight| >= limits.keys then (s, Refused(CapacityExceeded))
    else
      var r := Reservation(key, source, request);
      (s.(inflight := s.inflight[key := r], inflightSources := s.inflightSources[source := r]), Reserved(r))
  }

  /** Binds another key to a published attempt. The test ignores keys in flight. */
  function Alias(s: Store, limits: Limits, key: Id, attempt: Attempt): (Store, Option<Refusal>) {
    if key in s.idempotency then
      (s, if s.idempotency[key] == attempt.receipt then None else Some(IdempotencyConflict))
    else if |s.idempotency| >= limits.keys then (s, Some(CapacityExceeded))
    else (s.(idempotency := s.idempotency[key := attempt.receipt]), None)
  }

  predicate Holds(s: Store, r: Reservation) {
    r.key in s.inflight && s.inflight[r.key] == r
  }

  /** Swaps in copies of all five maps; the key is bound whatever it was bound to. */
  function Publish(s: Store, r: Reservation, attempt: Attempt): (Store, Option<Refusal>) {
    if !Holds(s, r) then (s, Some(StateUnavailable))
    else
      (Store(s.idempotency[r.key := attempt.receipt],
             s.inflight - {r.key},
             s.inflightSources - {r.source},
             s.results[attempt.receipt := attempt],
             s.sourceAttempts[r.source := attempt]),
       None)
  }

  /** Releases the caller's own reservation. */
  function Release(s: Store, r: Reservation): Store {
    if Holds(s, r) then s.(inflight := s.inflight - {r.key}, inflightSources := s.inflightSources - {r.source}) else s
  }

  /******* What the maps keep among themselves *******/

  /** The two in-flight maps hold exactly the same reservations. */
  ghost predicate SameReservations(inflight: map<Id, Reservation>, sources: map<Source, Reservation>) {
    && (forall k :: k in inflight ==>
          inflight[k].key == k && inflight[k].request.source == inflight[k].source && Listed(sources, inflight[k]))
    && (forall p :: p in sources ==>
          sources[p].source == p && sources[p].key in inflight && inflight[sources[p].key] == sources[p])
  }

  predicate Listed(sources: map<Source, Reservation>, r: Reservation) {
    r.source in sources && sources[r.source] == r
  }

  predicate Published(sourceAttempts: map<Source, Attempt>, a: Attempt) {
    SourceOf(a) in sourceAttempts && sourceAttempts[SourceOf(a)] == a
  }

  /** Every published result is the one attempt of its source. */
  ghost predicate OneResultPerSource(results: map<ReceiptId, Attempt>, sourceAttempts: map<Source, Attempt>) {
    && (forall p :: p in sourceAttempts ==>
          && SourceOf(sourceAttempts[p]) == p
          && sourceAttempts[p].receipt in results && results[sourceAttempts[p].receipt] == sourceAttempts[p])
    && (forall id :: id in results ==> results[id].receipt == id && Published(sourceAttempts, results[id]))
  }

  ghost predicate KeysBound(idempotency: map<Id, ReceiptId>, results: map<ReceiptId, Attempt>) {
    && (forall k :: k in idempotency ==> idempotency[k] in results)
    && (results != map[] ==> idempotency != map[])
  }

  ghost predicate Disjoint(sources: map<Source, Reservation>, sourceAttempts: map<Source, Attempt>) {
    forall p :: p in sources ==> p !in sourceAttempts
  }

  /** Sources stay within their limit; keys, within almost twice theirs. */
  predicate WithinLimits(s: Store, limits: Limits) {
    && |s.sourceAttempts| + |s.inflightSources| <= limits.attempts
    && |s.inflight| + (if s.idempotency == map[] then 0 else 1) <= limits.keys
    && (s.idempotency != map[] ==> |s.idempotency| + |s.inflight| <= 2 * limits.keys - 1)
  }

  ghost predicate Sound(s: Store, limits: Limits) {
    && SameReservations(s.inflight, s.inflightSources)
    && OneResultPerSource(s.results, s.sourceAttempts)
    && KeysBound(s.idempotency, s.results)
    && Disjoint(s.inflightSources, s.sourceAttempts)
    && WithinLimits(s, limits)
  }

  lemma AddKey<K, V>(m: map<K, V>, k: K, v: V)
    ensures |m[k := v]| == if k in m then |m| else |m| + 1
    ensures m[k := v] != map[]
  {
    assert m[k := v].Keys == m.Keys + {k};
    assert |m| == |m.Keys| && |m[k := v]| == |m[k := v].Keys|;
    assert k in m[k := v];
  }

  lemma DropKey<K, V>(m: map<K, V>, k: K)
    ensures |m - {k}| == if k in m then |m| - 1 else |m|
  {
    assert (m - {k}).Keys == m.Keys - {k};
    assert |m| == |m.Keys| && |m - {k}| == |(m - {k}).Keys|;
  }

  lemma ReservationAdded(inflight: map<Id, Reservation>, sources: map<Source, Reservation>, r: Reservation)
    requires SameReservations(inflight, sources) && r.key !in inflight && r.source !in sources && r.request.source == r.source
    ensures SameReservations(inflight[r.key := r], sources[r.source := r])
  {
  }

  lemma ReservationDropped(inflight: map<Id, Reservation>, sources: map<Source, Reservation>, r: Reservation)
    requires SameReservations(inflight, sources) && r.key in inflight && inflight[r.key] == r
    ensures SameReservations(inflight - {r.key}, sources - {r.source})
    ensures Listed(sources, r)
  {
  }

  /** Never an inconsistent state; a replay is of the published attempt of the source; and a
      reservation is of a key and a source that nobody holds or published. */
  lemma ReserveAnswers(s: Store, limits: Limits, key: Id, request: Request)
    requires Sound(s, limits)
    ensures match Reserve(s, limits, key, request).1
            case Reserved(r) =>
              && r == Reservation(key, request.source, request)
              && Reserve(s, limits, key, request).0 ==
                   s.(inflight := s.inflight[key := r], inflightSources := s.inflightSources[request.source := r])
              && key !in s.inflight && request.source !in s.inflightSources
              && request.source !in s.sourceAttempts && key !in s.idempotency
              && |s.sourceAttempts| + |s.inflightSources| < limits.attempts
              && |s.idempotency| + |s.inflight| < limits.keys
            case Replay(a, needsAlias) =>
              && Reserve(s, limits, key, request).0 == s
              && SourceOf(a) == request.source && Published(s.sourceAttempts, a)
              && (needsAlias <==> key !in s.idempotency)
              && (if needsAlias then a.receipt.request == request else a.receipt == s.idempotency[key])
            case Waiting =>
              && Reserve(s, limits, key, request).0 == s && request.source in s.inflightSources
              && (s.inflightSources[request.source].key == key || s.inflightSources[request.source].request == request)
            case Refused(refusal) => Reserve(s, limits, key, request).0 == s && refusal != StateUnavailable
  {
    hide Disjoint, WithinLimits;
    if key in s.idempotency {
      var id := s.idempotency[key];
      assert Published(s.sourceAttempts, s.results[id]);
    }
    assert key in s.inflight ==> Listed(s.inflightSources, s.inflight[key]);
  }

  /** The source that a key is bound or in flight for. */
  function KeySource(s: Store, key: Id): Option<Source>
    requires key in s.idempotency ==> s.idempotency[key] in s.results
  {
    if key in s.idempotency then Some(SourceOf(s.results[s.idempotency[key]]))
    else if key in s.inflight then Some(s.inflight[key].source)
    else None
  }

  /** The request that a source is held or published for. */
  function SourceRequest(s: Store, p: Source): Option<Request> {
    if p in s.inflightSources then Some(s.inflightSources[p].request)
    else if p in s.sourceAttempts then Some(s.sourceAttempts[p].receipt.request)
    else None
  }

  predicate Full(s: Store, limits: Limits) {
    || |s.sourceAttempts| + |s.inflightSources| >= limits.attempts
    || |s.idempotency| + |s.inflight| >= limits.keys
  }

  /** Which answer is given when. A known key is judged by its source alone, whatever the content
      of the request; a new key, by the whole request its source is held or published for. */
  lemma ReserveAnswersExactly(s: Store, limits: Limits, key: Id, request: Request)
    requires Sound(s, limits)
    ensures var answer, p := Reserve(s, limits, key, request).1, request.source;
            var known, asked := KeySource(s, key), SourceRequest(s, p);
            && (answer == Refused(IdempotencyConflict) <==> known.Some? && known.value != p)
            && (answer == Refused(AttemptConflict) <==> known.None? && asked.Some? && asked.value != request)
            && (answer == Refused(CapacityExceeded) <==> known.None? && asked.None? && Full(s, limits))
            && (answer == Waiting <==> key !in s.idempotency && p in s.inflightSources &&
                                       (known == Some(p) || (known.None? && asked == Some(request))))
            && (answer.Replay? <==> || (key in s.idempotency && known == Some(p))
                                    || (known.None? && p !in s.inflightSources && asked == Some(request)))
            && (answer.Reserved? <==> known.None? && asked.None? && !Full(s, limits))
  {
    hide Disjoint, WithinLimits;
    assert key in s.inflight ==> Listed(s.inflightSources, s.inflight[key]);
  }

  /** An alias ends with its key bound to the attempt exactly when it is not refused; it is refused
      for a key bound to another result, or a new key without room, and then changes nothing. */
  lemma AliasAnswersExactly(s: Store, limits: Limits, key: Id, a: Attempt)
    ensures var (t, refusal) := Alias(s, limits, key, a);
            && (refusal == None <==> key in t.idempotency && t.idempotency[key] == a.receipt)
            && (refusal == Some(IdempotencyConflict) <==> key in s.idempotency && s.idempotency[key] != a.receipt)
            && (refusal == Some(CapacityExceeded) <==> key !in s.idempotency && |s.idempotency| >= limits.keys)
            && (refusal != None ==> t == s) && Extends(s.idempotency, t.idempotency)
            && t == s.(idempotency := t.idempotency) && t.idempotency.Keys <= s.idempotency.Keys + {key}
  {
  }

  lemma ReserveKeepsSound(s: Store, limits: Limits, key: Id, request: Request)
    requires Sound(s, limits)
    ensures Sound(Reserve(s, limits, key, request).0, limits)
  {
    ReserveAnswers(s, limits, key, request);
    hide Reserve, SameReservations, OneResultPerSource, KeysBound;
    var (t, answer) := Reserve(s, limits, key, request);
    if answer.Reserved? {
      ReservationAdded(s.inflight, s.inflightSources, answer.reservation);
      AddKey(s.inflight, key, answer.reservation);
      AddKey(s.inflightSources, request.source, answer.reservation);
      assert s.idempotency != map[] ==> |s.idempotency| > 0;
    }
  }

  lemma AliasKeepsSound(s: Store, limits: Limits, key: Id, a: Attempt)
    requires Sound(s, limits) && Published(s.sourceAttempts, a)
    ensures Sound(Alias(s, limits, key, a).0, limits)
  {
    hide SameReservations, Disjoint;
    assert a.receipt in s.results;
    hide OneResultPerSource;
    AddKey(s.idempotency, key, a.receipt);
    assert s.idempotency != map[];
  }

  lemma ResultAdded(results: map<ReceiptId, Attempt>, sourceAttempts: map<Source, Attempt>, a: Attempt)
    requires OneResultPerSource(results, sourceAttempts) && SourceOf(a) !in sourceAttempts
    ensures OneResultPerSource(results[a.receipt := a], sourceAttempts[SourceOf(a) := a])
    ensures a.receipt !in results
  {
    assert a.receipt in results ==> Published(sourceAttempts, results[a.receipt]);
  }

  lemma PublishWithinLimits(s: Store, limits: Limits, r: Reservation, a: Attempt)
    requires WithinLimits(s, limits) && Holds(s, r) && r.source in s.inflightSources && r.source !in s.sourceAttempts
    ensures WithinLimits(Publish(s, r, a).0, limits)
  {
    AddKey(s.idempotency, r.key, a.receipt);
    AddKey(s.sourceAttempts, r.source, a);
    DropKey(s.inflight, r.key);
    DropKey(s.inflightSources, r.source);
    assert s.idempotency == map[] ==> |s.idempotency| == 0;
  }

  lemma PublishKeepsSound(s: Store, limits: Limits, r: Reservation, a: Attempt)
    requires Sound(s, limits) && SourceOf(a) == r.source
    ensures Sound(Publish(s, r, a).0, limits)
    ensures Holds(s, r) ==> r.source !in s.sourceAttempts && a.receipt !in s.results
  {
    hide WithinLimits;
    if Holds(s, r) {
      ReservationDropped(s.inflight, s.inflightSources, r);
      hide SameReservations;
      ResultAdded(s.results, s.sourceAttempts, a);
      hide OneResultPerSource;
      PublishWithinLimits(s, limits, r, a);
      assert r.key in s.idempotency[r.key := a.receipt];
      assert KeysBound(Publish(s, r, a).0.idempotency, Publish(s, r, a).0.results);
    }
  }

  lemma ReleaseKeepsSound(s: Store, limits: Limits, r: Reservation)
    requires Sound(s, limits)
    ensures Sound(Release(s, r), limits)
  {
    hide SameReservations, OneResultPerSource, KeysBound;
    if Holds(s, r) {
      ReservationDropped(s.inflight, s.inflightSources, r);
      DropKey(s.inflight, r.key);
      DropKey(s.inflightSources, r.source);
    }
  }

  /** Releasing a reservation just made restores both maps exactly. */
  lemma ReleaseUndoesReserve(s: Store, limits: Limits, key: Id, request: Request)
    requires Sound(s, limits) && Reserve(s, limits, key, request).1.Reserved?
    ensures Release(Reserve(s, limits, key, request).0, Reservation(key, request.source, request)) == s
  {
    hide Reserve, Sound;
    ReserveAnswers(s, limits, key, request);
    var r := Reservation(key, request.source, request);
    Restored(s.inflight, key, r);
    Restored(s.inflightSources, request.source, r);
  }

  lemma Restored<K, V>(m: map<K, V>, k: K, v: V)
    requires k !in m
    ensures m[k := v] - {k} == m
  {
  }

  /** A publication keeps the bindings of all keys exactly when its own key was unbound. */
  lemma PublishRebinds(s: Store, limits: Limits, r: Reservation, a: Attempt)
    requires Sound(s, limits) && Holds(s, r) && SourceOf(a) == r.source
    ensures (forall k :: k in s.idempotency ==>
               k in Publish(s, r, a).0.idempotency && Publish(s, r, a).0.idempotency[k] == s.idempotency[k])
        <==> r.key !in s.idempotency
  {
    PublishKeepsSound(s, limits, r, a);
    if r.key in s.idempotency {
      var id := s.idempotency[r.key];
      assert id in s.results && id != a.receipt;
    }
  }

  /** Bound and in-flight keys are within the configured limit after an alias exactly when the
      limit was already reached by bound keys alone, which refuses it, or the test that
      reservations make would have passed. */
  lemma AliasWithinLimit(s: Store, limits: Limits, key: Id, a: Attempt)
    requires key !in s.idempotency && |s.idempotency| + |s.inflight| <= limits.keys
    ensures var t := Alias(s, limits, key, a).0;
            |t.idempotency| + |t.inflight| <= limits.keys <==>
            |s.idempotency| >= limits.keys || |s.idempotency| + |s.inflight| < limits.keys
  {
    AddKey(s.idempotency, key, a.receipt);
  }
}
