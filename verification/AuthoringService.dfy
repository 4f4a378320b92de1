/** The assisted-authoring service: five maps changed only in sections that hold its lock. */
module AuthoringService {
  import opened Wrappers
  import R = AuthoringRules

  class Service {
    const limits: R.Limits
    var idempotency: map<R.Id, R.ReceiptId>
    var inflight: map<R.Id, R.Reservation>
    var inflightSources: map<R.Source, R.Reservation>
    var results: map<R.ReceiptId, R.Attempt>
    var sourceAttempts: map<R.Source, R.Attempt>

    ghost function State(): R.Store
      reads this
    {
      R.Store(idempotency, inflight, inflightSources, results, sourceAttempts)
    }

    ghost predicate Valid()
      reads this
    {
      R.Sound(State(), limits)
    }

    constructor (limits: R.Limits)
      ensures Valid() && State() == R.EMPTY && this.limits == limits
    {
      this.limits := limits;
      idempotency, inflight, inflightSources, results, sourceAttempts := map[], map[], map[], map[], map[];
    }

    /** One pass of the reservation loop. */
    method Reserve(key: R.Id, request: R.Request) returns (answer: R.Reserving)
      requires Valid()
      modifies this`inflight, this`inflightSources
      ensures Valid() && (State(), answer) == R.Reserve(old(State()), limits, key, request)
    {
      hide R.Sound;
      R.ReserveKeepsSound(State(), limits, key, request);
      var source := request.source;
      if key in idempotency {
        if idempotency[key] !in results {
          return R.Refused(R.StateUnavailable);
        }
        var replay := results[idempotency[key]];
        if R.SourceOf(replay) != source {
          return R.Refused(R.IdempotencyConflict);
        }
        return R.Replay(replay, false);
      }
      if key in inflight {
        return if inflight[key].source != source then R.Refused(R.IdempotencyConflict) else R.Waiting;
      }
      if source in inflightSources {
        return if inflightSources[source].request != request then R.Refused(R.AttemptConflict) else R.Waiting;
      }
      if source in sourceAttempts {
        var prior := sourceAttempts[source];
        return if prior.receipt.request != request then R.Refused(R.AttemptConflict) else R.Replay(prior, true);
      }
      if |sourceAttempts| + |inflightSources| >= limits.attempts {
        return R.Refused(R.CapacityExceeded);
      }
      if |idempotency| + |inflight| >= limits.keys {
        return R.Refused(R.CapacityExceeded);
      }
      var r := R.Reservation(key, source, request);
      inflight := inflight[key := r];
      inflightSources := inflightSources[source := r];
      answer := R.Reserved(r);
    }

    /** Binds a further key to a published attempt, once the owners have committed. */
    method PublishAlias(key: R.Id, replay: R.Attempt, ownersCommit: bool) returns (refusal: Option<R.Refusal>)
      requires Valid() && R.Published(sourceAttempts, replay)
      modifies this`idempotency
      ensures Valid()
      ensures ownersCommit ==> (State(), refusal) == R.Alias(old(State()), limits, key, replay)
      ensures !ownersCommit ==> State() == old(State()) && (refusal.None? ==> key in idempotency && idempotency[key] == replay.receipt)
    {
      R.AliasKeepsSound(State(), limits, key, replay);
      hide R.Sound;
      if key in idempotency {
        return if idempotency[key] == replay.receipt then None else Some(R.IdempotencyConflict);
      }
      if |idempotency| >= limits.keys {
        return Some(R.CapacityExceeded);
      }
      var newIdempotency := idempotency[key := replay.receipt];
      if !ownersCommit {
        return Some(R.StateUnavailable);
      }
      idempotency := newIdempotency;
      refusal := None;
    }

    /** Copies all five maps, lets the owners commit, and only then swaps the copies in. */
    method Publish(reservation: R.Reservation, stored: R.Attempt, ownersCommit: bool) returns (refusal: Option<R.Refusal>)
      requires Valid() && R.SourceOf(stored) == reservation.source
      modifies this
      ensures Valid()
      ensures ownersCommit ==> (State(), refusal) == R.Publish(old(State()), reservation, stored)
      ensures !ownersCommit ==> State() == old(State()) && refusal.Some?
    {
      hide R.Sound;
      R.PublishKeepsSound(State(), limits, reservation, stored);
      ghost var answer := R.Publish(State(), reservation, stored);
      var key, source := reservation.key, reservation.source;
      if key !in inflight || inflight[key] != reservation {
        return Some(R.StateUnavailable);
      }
      var newResults := results[stored.receipt := stored];
      var newSourceAttempts := sourceAttempts[source := stored];
      var newIdempotency := idempotency[key := stored.receipt];
      var newInflight := inflight - {key};
      var newInflightSources := inflightSources - {source};
      assert answer == (R.Store(newIdempotency, newInflight, newInflightSources, newResults, newSourceAttempts), None);
      hide R.Publish, R.Holds;
      if !ownersCommit {
        return Some(R.StateUnavailable);
      }
      results := newResults;
      sourceAttempts := newSourceAttempts;
      idempotency := newIdempotency;
      inflight := newInflight;
      inflightSources := newInflightSources;
      refusal := None;
    }

    /** The failure path: lets go of the caller's reservation, if it still holds it. */
    method Release(reservation: R.Reservation)
      requires Valid()
      modifies this`inflight, this`inflightSources
      ensures Valid() && State() == R.Release(old(State()), reservation)
    {
      hide R.Sound;
      R.ReleaseKeepsSound(State(), limits, reservation);
      if reservation.key in inflight && inflight[reservation.key] == reservation {
        inflight := inflight - {reservation.key};
        inflightSources := inflightSources - {reservation.source};
      }
    }
  }
}
