/** The three tables of the ledger, guarded inserts, and the issuing transaction. */
module LedgerWriter {
  import opened Wrappers
  import opened LedgerRecords
  import opened LedgerRules
  import opened LedgerScans
  import opened LedgerValidator
  import opened Decimals
  import opened EventIds
  import opened Issuance

  datatype Error = Invalid | Identity | Digest | Contract | Unavailable

  datatype Response = Stored(invitation: Invitation) | Failed(error: Error)

  /******* What the table constraints and triggers let through *******/

  /** Checks, the block against replacing a row, and the one-fingerprint trigger. */
  ghost predicate InvitationInsertable(l: Ledger, i: Invitation) {
    && 0 <= i.issuedAt < i.expiresAt
    && !Stores(l.invitations, i.id) && !OwnsDigest(l.invitations, i.tokenDigest)
    && !BoundOtherwise(l, i.binding)
  }

  ghost predicate EventInsertable(l: Ledger, e: Event) {
    && AuditRules(e) && IdAllowed(e.eventId) && e.sequence <= MAX_SQLITE_INTEGER
    && (forall f :: f in l.events ==> f.eventId != e.eventId && f.sequence != e.sequence)
    && !BoundOtherwise(l, e.binding)
  }

  function Range(n: nat): set<int> {
    if n == 0 then {} else Range(n - 1) + {n}
  }

  lemma {:induction false} RangeCounts(n: nat)
    ensures |Range(n)| == n && forall x :: x in Range(n) <==> 1 <= x <= n
  {
    if n > 0 {
      RangeCounts(n - 1);
    }
  }

  lemma {:induction false} SequencesCount(events: set<Event>)
    requires UniqueEvents(events)
    ensures |SequencesOf(events)| == |events|
  {
    if events != {} {
      var e :| e in events;
      SequencesCount(events - {e});
      assert SequencesOf(events) == SequencesOf(events - {e}) + {e.sequence};
    }
  }

  /** Sequences are distinct and start at one, so there are no more events than the highest. */
  lemma FewEvents(events: set<Event>, highest: int)
    requires UniqueEvents(events) && (forall e :: e in events ==> e.sequence >= 1)
    requires IsHighest(SequencesOf(events), highest)
    ensures highest >= 0 && |events| <= highest
  {
    SequencesCount(events);
    var e: Event;
    if events == {} {
      assert SequencesOf(events) == {};
    } else {
      e :| e in events;
      assert e.sequence in SequencesOf(events);
    }
    RangeCounts(highest);
    assert SequencesOf(events) <= Range(highest);
    SubsetCounts(SequencesOf(events), Range(highest));
  }

  lemma {:induction false} IdsCount(events: set<Event>)
    ensures |IdsOf(events)| <= |events|
  {
    if events == {} {
      assert IdsOf(events) == {};
    } else {
      var e :| e in events;
      IdsCount(events - {e});
      assert IdsOf(events) == IdsOf(events - {e}) + {e.eventId};
    }
  }

  lemma NextEventIdAllowed(l: Ledger, i: Invitation, e: Event)
    requires UniqueEvents(l.events) && (forall f :: f in l.events ==> f.sequence >= 1) && IsNextEvent(l, i, e)
    ensures IdAllowed(e.eventId)
  {
    hide Candidate, IdAllowed, Pow10;
    FewEvents(l.events, e.sequence - 1);
    IdsCount(l.events);
    IntegersAreShort();
    var k :| 0 <= k <= |IdsOf(l.events)| && FirstFree(IdsOf(l.events), e.sequence, e.eventId, k);
    CandidateAllowed(e.sequence, k);
  }

  /** On a validated ledger neither insert of an admitted issuance can be refused. */
  lemma NoTriggerFires(l: Ledger, i: Invitation, e: Event)
    requires Coherent(l) && RowsValid(l) && InvitationRules(i)
    requires AnswerTo(l, i) == Admitted && IsNextEvent(l, i, e)
    ensures InvitationInsertable(l, i)
    ensures EventInsertable(l.(invitations := l.invitations + {i}), e)
  {
    hide RevocationsAudited, CreationsAudited, ReissuesMatched, ReferencesAgree, RevocationsStored, OneFingerprint, UniqueInvitations,
         InvitationBindings, EventBindings, IdAllowed, AuditedOtherwise, Candidate;
    assert forall f :: f in l.events ==> f.sequence >= 1;
    hide RowsValid;
    assert e == IssuanceEvent(e.eventId, e.sequence, i) && AuditRules(e) && e.sequence <= MAX_SQLITE_INTEGER;
    NextEventIsFresh(l, i, e);
    NextEventIdAllowed(l, i, e);
    hide UniqueEvents, IsNextEvent, AuditRules;
    StoringAddsNoConflict(l, i);
  }

  lemma StoringAddsNoConflict(l: Ledger, i: Invitation)
    ensures BoundOtherwise(l.(invitations := l.invitations + {i}), i.binding) <==> BoundOtherwise(l, i.binding)
  {
    assert InvitationBindings(l.invitations + {i}) == InvitationBindings(l.invitations) + {i.binding};
    hide InvitationBindings, EventBindings;
  }

  /******* The transaction *******/

  lemma OneMoreRow<T>(rows: seq<T>, row: T)
    ensures Rows(rows + [row]) == Rows(rows) + {row}
    ensures NoRepeats(rows) && row !in Rows(rows) ==> NoRepeats(rows + [row])
  {
  }

  class LedgerTables {
    var invitations: seq<Invitation>
    var revocations: seq<Revocation>
    var events: seq<Event>

    ghost function State(): Ledger
      reads this
    {
      LedgerOf(invitations, events, revocations)
    }

    /** The tables pass the validator and every row obeys the rules of its kind. */
    ghost predicate Writable()
      reads this
    {
      Acceptable(invitations, events, revocations) && RowsValid(State())
    }

    constructor ()
      ensures invitations == [] && revocations == [] && events == [] && Writable()
    {
      invitations, revocations, events := [], [], [];
      new;
      EmptyIsCoherent();
    }

    method InsertInvitation(row: Invitation) returns (inserted: bool)
      modifies this`invitations
      ensures inserted <==> InvitationInsertable(old(State()), row)
      ensures invitations == if inserted then old(invitations) + [row] else old(invitations)
    {
      inserted :=
        && 0 <= row.issuedAt < row.expiresAt
        && (forall i :: i in invitations ==> i.id != row.id && i.tokenDigest != row.tokenDigest)
        && (forall i :: i in invitations ==> i.binding.version == row.binding.version ==> i.binding == row.binding)
        && (forall e :: e in events ==> e.binding.version == row.binding.version ==> e.binding == row.binding);
      InvitationGuard(State(), row, inserted);
      if inserted {
        invitations := invitations + [row];
      }
    }

    method InsertEvent(row: Event) returns (inserted: bool)
      modifies this`events
      ensures inserted <==> EventInsertable(old(State()), row)
      ensures events == if inserted then old(events) + [row] else old(events)
    {
      inserted :=
        && AuditRules(row) && IdAllowed(row.eventId) && row.sequence <= MAX_SQLITE_INTEGER
        && (forall e :: e in events ==> e.eventId != row.eventId && e.sequence != row.sequence)
        && (forall i :: i in invitations ==> i.binding.version == row.binding.version ==> i.binding == row.binding)
        && (forall e :: e in events ==> e.binding.version == row.binding.version ==> e.binding == row.binding);
      EventGuard(State(), row, inserted);
      if inserted {
        events := events + [row];
      }
    }

    /** Reads and validates every row, then the tables together. */
    method ReadWriteState() returns (bindings: Option<map<Version, Binding>>)
      ensures bindings.Some? <==> Writable()
      ensures bindings.Some? ==>
        Remembers(bindings.value, InvitationBindings(State().invitations) + EventBindings(State().events))
    {
      hide Acceptable, Remembers, InvitationRules, RevocationRules, AuditRules, InvitationBindings, EventBindings;
      var corrupt := false;
      for k := 0 to |invitations|
        invariant corrupt <==> exists j :: 0 <= j < k && !InvitationRules(invitations[j])
      {
        if !InvitationRules(invitations[k]) {
          corrupt := true;
        }
      }
      for k := 0 to |events|
        invariant corrupt <==>
          || (exists j :: 0 <= j < |invitations| && !InvitationRules(invitations[j]))
          || (exists j :: 0 <= j < k && !AuditRules(events[j]))
      {
        if !AuditRules(events[k]) {
          corrupt := true;
        }
      }
      for k := 0 to |revocations|
        invariant corrupt <==>
          || (exists j :: 0 <= j < |invitations| && !InvitationRules(invitations[j]))
          || (exists j :: 0 <= j < |events| && !AuditRules(events[j]))
          || (exists j :: 0 <= j < k && !RevocationRules(revocations[j]))
      {
        if !RevocationRules(revocations[k]) {
          corrupt := true;
        }
      }
      assert !corrupt <==> RowsValid(State());
      if corrupt {
        return None;
      }
      bindings := ValidateWriteState(invitations, events, revocations);
    }

    /** The row with the identity, if it is stored. */
    method FindInvitation(id: Id) returns (found: Option<Invitation>)
      ensures found.Some? <==> Stores(State().invitations, id)
      ensures found.Some? ==> found.value in State().invitations && found.value.id == id
    {
      for k := 0 to |invitations|
        invariant forall j :: 0 <= j < k ==> invitations[j].id != id
      {
        if invitations[k].id == id {
          return Some(invitations[k]);
        }
      }
      found := None;
    }

    /** The binding of the first audit event that names the identity. */
    method ReferencedBinding(id: Id) returns (found: Option<Binding>)
      ensures found.Some? <==> exists e :: e in State().events && e.invitationId == Some(id)
      ensures found.Some? ==> exists e :: e in State().events && e.invitationId == Some(id) && e.binding == found.value
    {
      for k := 0 to |events|
        invariant forall j :: 0 <= j < k ==> events[j].invitationId != Some(id)
      {
        if events[k].invitationId == Some(id) {
          return Some(events[k].binding);
        }
      }
      found := None;
    }

    method DigestOwners(digest: Id) returns (owners: seq<Invitation>)
      ensures forall i :: i in owners <==> i in State().invitations && i.tokenDigest == digest
      ensures NoRepeats(invitations) && |owners| > 1 ==>
        owners[0] != owners[1] && owners[0] in State().invitations && owners[1] in State().invitations &&
        owners[0].tokenDigest == digest == owners[1].tokenDigest
    {
      owners := [];
      for k := 0 to |invitations|
        invariant forall i :: i in owners <==> i in Rows(invitations[..k]) && i.tokenDigest == digest
        invariant NoRepeats(invitations) ==> NoRepeats(owners)
      {
        NextRow(invitations, k);
        if invitations[k].tokenDigest == digest {
          owners := owners + [invitations[k]];
        }
      }
      AllRows(invitations);
      assert forall k :: 0 <= k < |owners| ==> owners[k] in owners;
    }

    /** Whether an audit event names the identity under another binding. */
    method AuditDisagrees(i: Invitation) returns (disagrees: bool)
      requires Coherent(State())
      ensures disagrees <==> AuditedOtherwise(State().events, i)
    {
      hide Coherent;
      SameReferences(State());
      var referenced := ReferencedBinding(i.id);
      disagrees := referenced.Some? && referenced.value != i.binding;
    }

    /** Whether another invitation owns the digest; several owners are impossible by now. */
    method DigestTaken(digest: Id) returns (taken: bool)
      requires Coherent(State()) && NoRepeats(invitations)
      ensures taken <==> OwnsDigest(State().invitations, digest)
    {
      hide Coherent;
      SameDigests(State());
      var owners := DigestOwners(digest);
      if |owners| > 1 {
        assert false;
      }
      taken := owners != [];
      assert taken ==> owners[0] in owners;
      assert forall i :: i in State().invitations && i.tokenDigest == digest ==> i in owners;
    }

    /** The error that stops a request before anything is written, if any. */
    method Refusal(i: Invitation, bindings: map<Version, Binding>) returns (refusal: Option<Error>)
      requires Writable() && !Stores(State().invitations, i.id)
      requires Remembers(bindings, InvitationBindings(State().invitations) + EventBindings(State().events))
      ensures AnswerTo(State(), i) != ExactReplay && (refusal.None? <==> AnswerTo(State(), i) == Admitted)
      ensures refusal.Some? ==> refusal.value == ErrorOf(AnswerTo(State(), i))
    {
      hide Coherent, RowsValid, NoRepeats, InvitationBindings, EventBindings, Stores, AuditedOtherwise, OwnsDigest, BoundOtherwise,
           Remembers;
      NotStored(State(), i);
      BoundByMap(State(), bindings, i.binding);
      var stop := AuditDisagrees(i);
      if stop {
        return Some(Identity);
      }
      stop := DigestTaken(i.tokenDigest);
      if stop {
        return Some(Digest);
      }
      if i.binding.version in bindings && bindings[i.binding.version] != i.binding {
        return Some(Contract);
      }
      refusal := None;
    }

    /** Reads, validates, answers a repeat or a conflict, or writes the invitation and its
        audit event together. A failed insert or commit leaves the tables as they were. */
    method IssueInvitation(i: Invitation, commits: bool) returns (response: Response)
      modifies this
      ensures revocations == old(revocations)
      ensures old(Writable()) ==> Writable()
      ensures response.Stored? ==> response.invitation == i
      ensures response.Failed? || old(AnswerTo(State(), i) == ExactReplay) ==>
        invitations == old(invitations) && events == old(events)
      ensures !InvitationRules(i) ==> response == Failed(Invalid)
      ensures InvitationRules(i) && !old(Writable()) ==> response == Failed(Unavailable)
      ensures InvitationRules(i) && old(Writable()) ==>
        match old(AnswerTo(State(), i))
        case ExactReplay => response == if commits then Stored(i) else Failed(Unavailable)
        case Admitted =>
          if commits && !old(SequencesExhausted(State().events)) then
            && response == Stored(i)
            && invitations == old(invitations) + [i]
            && exists e :: IsNextEvent(old(State()), i, e) && events == old(events) + [e]
          else
            response == Failed(Unavailable)
        case refused => response == Failed(ErrorOf(refused))
      ensures commits && InvitationRules(i) && old(Writable()) ==> Writes(old(State()), i, State(), response)
    {
      hide Coherent, RowsValid, NoRepeats, IsNextEvent, IsNextId, IsHighest, AnswerTo, Remembers, SequencesExhausted, InvitationRules;
      if !InvitationRules(i) {
        return Failed(Invalid);
      }
      var bindings := ReadWriteState();
      if bindings.None? {
        return Failed(Unavailable);
      }
      var existing := FindInvitation(i.id);
      if existing.Some? {
        SameIdentity(State(), existing.value, i);
        if existing.value != i {
          return Failed(Identity);
        }
        return if commits then Stored(i) else Failed(Unavailable);
      }
      var refusal := Refusal(i, bindings.value);
      if refusal.Some? {
        return Failed(refusal.value);
      }
      var sequence := NextSequence(events);
      NextFacts(State(), sequence);
      if sequence.None? {
        return Failed(Unavailable);
      }
      var id := NextEventId(set e | e in events :: e.eventId, sequence.value);
      var event := IssuanceEvent(id.value, sequence.value, i);
      ghost var before := State();
      assert (set e | e in events :: e.eventId) == IdsOf(before.events);
      NextEventFacts(before, i, id.value, sequence.value);
      WriteFacts(before, i, event);
      OneMoreRow(invitations, i);
      OneMoreRow(events, event);
      var savedInvitations, savedEvents := invitations, events;
      var inserted := InsertInvitation(i);
      assert inserted && State() == before.(invitations := before.invitations + {i});
      inserted := InsertEvent(event);
      assert inserted && State() == Extended(before, i, event);
      if !commits {
        invitations, events := savedInvitations, savedEvents;
        return Failed(Unavailable);
      }
      response := Stored(i);
    }
  }

  lemma EmptyIsCoherent()
    ensures Acceptable([], [], []) && RowsValid(LedgerOf([], [], []))
  {
    assert LedgerOf([], [], []) == Ledger({}, {}, {});
  }

  lemma InvitationGuard(l: Ledger, row: Invitation, inserted: bool)
    requires inserted <==>
      && 0 <= row.issuedAt < row.expiresAt
      && (forall i :: i in l.invitations ==> i.id != row.id && i.tokenDigest != row.tokenDigest)
      && (forall i :: i in l.invitations ==> i.binding.version == row.binding.version ==> i.binding == row.binding)
      && (forall e :: e in l.events ==> e.binding.version == row.binding.version ==> e.binding == row.binding)
    ensures inserted <==> InvitationInsertable(l, row)
  {
    BoundByRows(l, row.binding);
    hide BoundOtherwise;
  }

  lemma EventGuard(l: Ledger, row: Event, inserted: bool)
    requires inserted <==>
      && AuditRules(row) && IdAllowed(row.eventId) && row.sequence <= MAX_SQLITE_INTEGER
      && (forall e :: e in l.events ==> e.eventId != row.eventId && e.sequence != row.sequence)
      && (forall i :: i in l.invitations ==> i.binding.version == row.binding.version ==> i.binding == row.binding)
      && (forall e :: e in l.events ==> e.binding.version == row.binding.version ==> e.binding == row.binding)
    ensures inserted <==> EventInsertable(l, row)
  {
    BoundByRows(l, row.binding);
    hide BoundOtherwise, AuditRules, IdAllowed;
  }

  lemma BoundByRows(l: Ledger, b: Binding)
    ensures BoundOtherwise(l, b) <==>
      || (exists i :: i in l.invitations && i.binding.version == b.version && i.binding != b)
      || (exists e :: e in l.events && e.binding.version == b.version && e.binding != b)
  {
    forall i | i in l.invitations
      ensures i.binding in InvitationBindings(l.invitations)
    {
    }
    forall e | e in l.events
      ensures e.binding in EventBindings(l.events)
    {
    }
  }

  function ErrorOf(a: Answer): Error {
    match a
    case IdentityConflict => Identity
    case TokenDigestConflict => Digest
    case BindingMismatch => Contract
    case _ => Unavailable
  }

  /** A committed request against a valid ledger: the answer and the ledger it leaves. */
  ghost predicate Writes(l: Ledger, i: Invitation, l': Ledger, response: Response) {
    match AnswerTo(l, i)
    case ExactReplay => l' == l && response == Stored(i)
    case Admitted =>
      if SequencesExhausted(l.events) then l' == l && response == Failed(Unavailable)
      else response == Stored(i) && exists e :: IsNextEvent(l, i, e) && l' == Extended(l, i, e)
    case refused => l' == l && response == Failed(ErrorOf(refused))
  }

  /** The highest sequence is already the last the database can hold. */
  ghost predicate SequencesExhausted(events: set<Event>) {
    exists e :: e in events && e.sequence >= MAX_SQLITE_INTEGER
  }

  /** Whatever the answer, the ledger stays coherent. A failure leaves it alone, a success leaves
      the invitation stored, and a new one brings just itself and one event, which records it. */
  lemma WritesWhole(l: Ledger, i: Invitation, l': Ledger, response: Response)
    requires Coherent(l) && RowsValid(l) && InvitationRules(i) && Writes(l, i, l', response)
    ensures Coherent(l') && RowsValid(l')
    ensures response.Failed? || i in l.invitations ==> l' == l
    ensures response.Stored? ==> response.invitation == i && i in l'.invitations
    ensures l' != l ==>
      && i !in l.invitations && l'.invitations == l.invitations + {i} && l'.revocations == l.revocations
      && exists e :: e !in l.events && RecordsIssuance(e, i) && l'.events == l.events + {e}
  {
    hide Coherent, RowsValid, SequencesExhausted, InvitationRules, InvitationInsertable, EventInsertable;
    if AnswerTo(l, i) == Admitted && !SequencesExhausted(l.events) {
      var e :| IsNextEvent(l, i, e) && l' == Extended(l, i, e);
      WriteFacts(l, i, e);
      assert e == IssuanceEvent(e.eventId, e.sequence, i);
      hide IsNextEvent;
      assert RecordsIssuance(e, i);
    }
    hide AuditedOtherwise, OwnsDigest, BoundOtherwise, Stores;
  }

  /** Rows that the checks let in are rows that reading accepts, given a supported digest. */
  lemma InsertedRowsReadBack(l: Ledger, i: Invitation, e: Event)
    ensures InvitationInsertable(l, i) && i.digestVersion == SHA256_V1 ==> InvitationRules(i)
    ensures EventInsertable(l, e) ==> AuditRules(e)
  {
  }

  lemma NextFacts(l: Ledger, sequence: Option<int>)
    requires RowsValid(l)
    requires sequence.Some? ==> sequence.value <= MAX_SQLITE_INTEGER && IsHighest(SequencesOf(l.events), sequence.value - 1)
    requires sequence.None? ==> exists e :: e in l.events && e.sequence >= MAX_SQLITE_INTEGER
    ensures sequence.None? <==> SequencesExhausted(l.events)
    ensures sequence.Some? ==> sequence.value >= 1
  {
    assert forall e :: e in l.events ==> e.sequence in SequencesOf(l.events) && e.sequence >= 1;
  }

  lemma NextEventFacts(l: Ledger, i: Invitation, id: string, sequence: int)
    requires 1 <= sequence <= MAX_SQLITE_INTEGER && IsHighest(SequencesOf(l.events), sequence - 1)
    requires IsNextId(IdsOf(l.events), sequence, id)
    ensures IsNextEvent(l, i, IssuanceEvent(id, sequence, i))
  {
  }

  lemma SameReferences(l: Ledger)
    requires Coherent(l)
    ensures forall e, f :: e in l.events && f in l.events && SameTarget(e, f) ==> e.binding == f.binding
  {
    assert ReferencesAgree(l.invitations, l.events);
    hide Coherent;
  }

  lemma SameDigests(l: Ledger)
    requires Coherent(l)
    ensures forall a, b :: a in l.invitations && b in l.invitations && a.tokenDigest == b.tokenDigest ==> a == b
  {
    assert UniqueInvitations(l.invitations);
    hide Coherent;
  }

  lemma NotStored(l: Ledger, i: Invitation)
    requires !Stores(l.invitations, i.id)
    ensures i !in l.invitations
  {
  }

  lemma BoundByMap(l: Ledger, bindings: map<Version, Binding>, b: Binding)
    requires Remembers(bindings, InvitationBindings(l.invitations) + EventBindings(l.events))
    ensures BoundOtherwise(l, b) <==> b.version in bindings && bindings[b.version] != b
  {
    hide InvitationBindings, EventBindings;
  }

  lemma SameIdentity(l: Ledger, stored: Invitation, i: Invitation)
    requires Coherent(l) && stored in l.invitations && stored.id == i.id
    ensures i in l.invitations <==> stored == i
    ensures AnswerTo(l, i) == if stored == i then ExactReplay else IdentityConflict
  {
    assert UniqueInvitations(l.invitations);
    hide Coherent, BoundOtherwise, AuditedOtherwise, OwnsDigest;
  }

  lemma RowsStayValid(l: Ledger, i: Invitation, e: Event)
    requires RowsValid(l) && InvitationRules(i) && AuditRules(e)
    ensures RowsValid(Extended(l, i, e))
  {
    hide InvitationRules, AuditRules, RevocationRules;
  }

  lemma WriteFacts(l: Ledger, i: Invitation, e: Event)
    requires Coherent(l) && RowsValid(l) && InvitationRules(i) && AnswerTo(l, i) == Admitted && IsNextEvent(l, i, e)
    ensures InvitationInsertable(l, i) && EventInsertable(l.(invitations := l.invitations + {i}), e)
    ensures Coherent(Extended(l, i, e)) && RowsValid(Extended(l, i, e))
    ensures i !in l.invitations && e !in l.events
  {
    hide Coherent, IsNextEvent, BoundOtherwise, IdAllowed, RowsValid, InvitationRules, AuditRules;
    NoTriggerFires(l, i, e);
    IssuanceKeepsCoherence(l, i, e);
    NextEventIsFresh(l, i, e);
    RowsStayValid(l, i, e);
  }
}
