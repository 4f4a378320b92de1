/** Issuing an invitation into a coherent ledger: which requests go through, and that those
    are exactly the ones the ledger can absorb. */
module Issuance {
  import opened Wrappers
  import opened LedgerRecords
  import opened LedgerRules
  import opened EventIds

  datatype Answer =
    | Admitted
    | ExactReplay
    | IdentityConflict
    | TokenDigestConflict
    | BindingMismatch

  /** The answer to a request against a coherent ledger, audit numbering aside. */
  ghost function AnswerTo(l: Ledger, i: Invitation): Answer {
    if i in l.invitations then ExactReplay
    else if Stores(l.invitations, i.id) || AuditedOtherwise(l.events, i) then IdentityConflict
    else if OwnsDigest(l.invitations, i.tokenDigest) then TokenDigestConflict
    else if BoundOtherwise(l, i.binding) then BindingMismatch
    else Admitted
  }

  /** Some audit event names the invitation under another binding. */
  ghost predicate AuditedOtherwise(events: set<Event>, i: Invitation) {
    exists e :: e in events && e.invitationId == Some(i.id) && e.binding != i.binding
  }

  ghost predicate OwnsDigest(invitations: set<Invitation>, digest: Id) {
    exists i :: i in invitations && i.tokenDigest == digest
  }

  ghost predicate BoundOtherwise(l: Ledger, b: Binding) {
    exists c :: c in InvitationBindings(l.invitations) + EventBindings(l.events) && c.version == b.version && c != b
  }

  /** The audit event that accompanies a new invitation. */
  function IssuanceEvent(id: string, sequence: int, i: Invitation): Event {
    Event(id, sequence, INVITATION_ISSUED, i.issuedAt, i.binding, SUCCEEDED, Some(i.id), None, None, None, None, Sqlite)
  }

  /** Numbered one above the highest sequence, and named by the first free id. */
  ghost predicate IsNextEvent(l: Ledger, i: Invitation, e: Event) {
    && 1 <= e.sequence <= MAX_SQLITE_INTEGER
    && IsHighest(SequencesOf(l.events), e.sequence - 1)
    && IsNextId(IdsOf(l.events), e.sequence, e.eventId)
    && e == IssuanceEvent(e.eventId, e.sequence, i)
  }

  function Extended(l: Ledger, i: Invitation, e: Event): Ledger {
    Ledger(l.invitations + {i}, l.revocations, l.events + {e})
  }

  /** An event numbered by the rules is new. */
  lemma NextEventIsFresh(l: Ledger, i: Invitation, e: Event)
    requires IsNextEvent(l, i, e)
    ensures forall f :: f in l.events ==> f.eventId != e.eventId && f.sequence != e.sequence
    ensures e !in l.events
  {
    hide Candidate;
    forall f | f in l.events
      ensures f.eventId != e.eventId && f.sequence != e.sequence
    {
      assert f.eventId in IdsOf(l.events) && f.sequence in SequencesOf(l.events);
    }
  }

  /******* An admitted invitation keeps the ledger coherent *******/

  lemma KeepsUnique(l: Ledger, i: Invitation, e: Event)
    requires UniqueInvitations(l.invitations) && UniqueEvents(l.events)
    requires AnswerTo(l, i) == Admitted && IsNextEvent(l, i, e)
    ensures UniqueInvitations(l.invitations + {i}) && UniqueEvents(l.events + {e})
  {
    NextEventIsFresh(l, i, e);
    hide BoundOtherwise, AuditedOtherwise, IsNextEvent;
  }

  lemma MoreBindings(l: Ledger, i: Invitation, e: Event)
    ensures InvitationBindings(l.invitations + {i}) + EventBindings(l.events + {e}) ==
            InvitationBindings(l.invitations) + EventBindings(l.events) + {i.binding, e.binding}
  {
    assert InvitationBindings(l.invitations + {i}) == InvitationBindings(l.invitations) + {i.binding};
    assert EventBindings(l.events + {e}) == EventBindings(l.events) + {e.binding};
  }

  lemma KeepsFingerprints(l: Ledger, i: Invitation, e: Event)
    requires OneFingerprint(InvitationBindings(l.invitations) + EventBindings(l.events))
    requires AnswerTo(l, i) == Admitted && e.binding == i.binding
    ensures OneFingerprint(InvitationBindings(l.invitations + {i}) + EventBindings(l.events + {e}))
  {
    MoreBindings(l, i, e);
    assert !BoundOtherwise(l, i.binding);
    hide InvitationBindings, EventBindings, AnswerTo;
  }

  /** Rejections that named the identity before it was stored do no harm. */
  lemma KeepsReferences(l: Ledger, i: Invitation, e: Event)
    requires ReferencesAgree(l.invitations, l.events) && AnswerTo(l, i) == Admitted && IsNextEvent(l, i, e)
    ensures ReferencesAgree(l.invitations + {i}, l.events + {e})
  {
    assert !AuditedOtherwise(l.events, i) && !Stores(l.invitations, i.id);
    assert e == IssuanceEvent(e.eventId, e.sequence, i);
    hide AnswerTo, IsNextEvent, BoundOtherwise, OwnsDigest;
    assert Stores(l.invitations + {i}, i.id);
    forall id | Stores(l.invitations, id)
      ensures Stores(l.invitations + {i}, id)
    {
      var j :| j in l.invitations && j.id == id;
      assert j in l.invitations + {i};
    }
  }

  lemma KeepsStoredRevocations(l: Ledger, i: Invitation)
    requires RevocationsStored(l.invitations, l.revocations)
    ensures RevocationsStored(l.invitations + {i}, l.revocations)
  {
    forall r | r in l.revocations
      ensures exists j :: j in l.invitations + {i} && j.id == r.invitationId && j.issuedAt <= r.revokedAt
    {
      var j :| j in l.invitations && j.id == r.invitationId && j.issuedAt <= r.revokedAt;
      assert j in l.invitations + {i};
    }
  }

  lemma KeepsRevokingEvent(l: Ledger, i: Invitation, e: Event, f: Event)
    requires RevokingEventFits(l, f) && !IsRevoking(e)
    ensures RevokingEventFits(Extended(l, i, e), f)
  {
    var j, r :| j in l.invitations && r in l.revocations && r.invitationId == j.id && RecordsRevocation(f, j, r);
    assert j in Extended(l, i, e).invitations;
  }

  lemma KeepsRevocations(l: Ledger, i: Invitation, e: Event)
    requires RevocationsAudited(l) && !IsRevoking(e)
    ensures RevocationsAudited(Extended(l, i, e))
  {
    var l' := Extended(l, i, e);
    forall f | f in l'.events && IsRevoking(f)
      ensures RevokingEventFits(l', f)
    {
      KeepsRevokingEvent(l, i, e, f);
    }
    forall r | r in l.revocations
      ensures RevocationRecorded(l', r)
    {
      assert RevocationRecorded(l, r);
      hide RevokingEventFits;
    }
    hide RevokingEventFits, RevocationRecorded;
  }

  lemma NamesStored(l: Ledger, f: Event)
    requires CreationsAudited(l) && f in l.events && IsCreation(f)
    ensures f.invitationId.Some? && Stores(l.invitations, f.invitationId.value)
  {
    assert CreationEventFits(l, f);
  }

  lemma KeepsCreationEvent(l: Ledger, i: Invitation, e: Event, f: Event)
    requires !Stores(l.invitations, i.id) && e == IssuanceEvent(e.eventId, e.sequence, i)
    requires f in l.events && IsCreation(f) && CreationEventFits(l, f)
    ensures CreationEventFits(Extended(l, i, e), f)
  {
    var j :| j in l.invitations && RecordsCreation(f, j);
    assert j in Extended(l, i, e).invitations;
    assert Stores(l.invitations, f.invitationId.value);
  }

  lemma NewCreationEvent(l: Ledger, i: Invitation, e: Event)
    requires CreationsAudited(l) && !Stores(l.invitations, i.id) && e == IssuanceEvent(e.eventId, e.sequence, i)
    ensures CreationEventFits(Extended(l, i, e), e)
  {
    hide CreationsAudited;
    assert i in Extended(l, i, e).invitations && RecordsCreation(e, i);
    forall f | f in l.events && IsCreation(f)
      ensures !SameTarget(e, f)
    {
      NamesStored(l, f);
    }
  }

  lemma KeepsCreations(l: Ledger, i: Invitation, e: Event)
    requires CreationsAudited(l) && !Stores(l.invitations, i.id) && e == IssuanceEvent(e.eventId, e.sequence, i)
    ensures CreationsAudited(Extended(l, i, e))
  {
    hide CreationEventFits, Stores;
    var l' := Extended(l, i, e);
    assert e in l'.events;
    forall j | j in l'.invitations
      ensures CreationRecorded(l', j)
    {
      if j in l.invitations {
        assert CreationRecorded(l, j);
      }
    }
    hide CreationRecorded;
    NewCreationEvent(l, i, e);
    forall f | f in l.events && IsCreation(f)
      ensures CreationEventFits(l', f)
    {
      KeepsCreationEvent(l, i, e, f);
    }
  }

  lemma KeepsReissued(l: Ledger, i: Invitation, e: Event, j: Invitation)
    requires CreationsAudited(l) && !Stores(l.invitations, i.id) && e == IssuanceEvent(e.eventId, e.sequence, i)
    ensures Reissued(Extended(l, i, e), j) <==> Reissued(l, j)
  {
    hide CreationsAudited, CreationRecorded, CreationEventFits;
    if Reissued(Extended(l, i, e), j) {
      var f :| f in l.events + {e} && f.eventType == INVITATION_REISSUED && f.invitationId == Some(j.id);
      NamesStored(l, f);
    }
  }

  lemma KeepsSource(l: Ledger, i: Invitation, e: Event, j: Invitation, s: Invitation)
    requires RevocationsStored(l.invitations, l.revocations) && !Stores(l.invitations, i.id)
    ensures IsSource(Extended(l, i, e), j, s) <==> IsSource(l, j, s)
  {
    if IsSource(Extended(l, i, e), j, s) {
      var r :| r in l.revocations && r.invitationId == s.id && r.revokedAt == j.issuedAt && r.reason == REISSUED;
      var k :| k in l.invitations && k.id == r.invitationId;
      assert Stores(l.invitations, s.id);
    }
    hide RevocationsStored;
  }

  /** Issuance neither makes nor breaks a reissue: every invitation keeps its sources. */
  lemma KeepsSources(l: Ledger, i: Invitation, e: Event)
    requires RevocationsStored(l.invitations, l.revocations) && CreationsAudited(l)
    requires !Stores(l.invitations, i.id) && e == IssuanceEvent(e.eventId, e.sequence, i)
    ensures forall j :: Reissued(Extended(l, i, e), j) <==> Reissued(l, j)
    ensures forall j, s :: IsSource(Extended(l, i, e), j, s) <==> IsSource(l, j, s)
  {
    hide RevocationsStored, CreationsAudited, Reissued, IsSource, Stores;
    forall j
      ensures Reissued(Extended(l, i, e), j) <==> Reissued(l, j)
    {
      KeepsReissued(l, i, e, j);
    }
    forall j, s
      ensures IsSource(Extended(l, i, e), j, s) <==> IsSource(l, j, s)
    {
      KeepsSource(l, i, e, j, s);
    }
  }

  lemma KeepsMatching(l: Ledger, l': Ledger)
    requires ReissuesMatched(l) && l'.revocations == l.revocations
    requires forall j :: Reissued(l', j) <==> Reissued(l, j)
    requires forall j, s :: IsSource(l', j, s) <==> IsSource(l, j, s)
    ensures ReissuesMatched(l')
  {
    hide Reissued, IsSource;
    forall i | Reissued(l', i)
      ensures exists s :: IsSource(l', i, s)
    {
      var s :| IsSource(l, i, s);
      assert IsSource(l', i, s);
    }
    forall r | r in l'.revocations && r.reason == REISSUED
      ensures exists i, s :: Reissued(l', i) && IsSource(l', i, s) && s.id == r.invitationId
    {
      var i, s :| Reissued(l, i) && IsSource(l, i, s) && s.id == r.invitationId;
      assert Reissued(l', i) && IsSource(l', i, s);
    }
  }

  /** The ledger passes the validator again after an admitted issuance, with every reissue
      match as it was. */
  lemma IssuanceKeepsCoherence(l: Ledger, i: Invitation, e: Event)
    requires Coherent(l) && AnswerTo(l, i) == Admitted && IsNextEvent(l, i, e)
    ensures Coherent(Extended(l, i, e))
    ensures forall j :: Reissued(Extended(l, i, e), j) <==> Reissued(l, j)
    ensures forall j, s :: IsSource(Extended(l, i, e), j, s) <==> IsSource(l, j, s)
  {
    assert e == IssuanceEvent(e.eventId, e.sequence, i) && !Stores(l.invitations, i.id);
    assert Extended(l, i, e).revocations == l.revocations;
    hide UniqueInvitations, UniqueEvents, OneFingerprint, RevocationsStored, ReferencesAgree, RevocationsAudited, CreationsAudited,
         ReissuesMatched, InvitationBindings, EventBindings, IsNextEvent, AnswerTo, Reissued, IsSource, Stores;
    KeepsUnique(l, i, e);
    KeepsFingerprints(l, i, e);
    KeepsReferences(l, i, e);
    KeepsStoredRevocations(l, i);
    KeepsRevocations(l, i, e);
    KeepsCreations(l, i, e);
    KeepsSources(l, i, e);
    KeepsMatching(l, Extended(l, i, e));
  }

  /** The guards are exact: a new invitation is admitted if and only if the ledger stays
      coherent with it and its audit event. */
  lemma AdmissionIsExact(l: Ledger, i: Invitation, e: Event)
    requires Coherent(l) && IsNextEvent(l, i, e) && i !in l.invitations
    ensures AnswerTo(l, i) == Admitted <==> Coherent(Extended(l, i, e))
  {
    if AnswerTo(l, i) == Admitted {
      IssuanceKeepsCoherence(l, i, e);
    }
    if Coherent(Extended(l, i, e)) {
      CoherentAdmits(l, i, e);
    }
  }

  lemma CoherentAdmits(l: Ledger, i: Invitation, e: Event)
    requires Coherent(Extended(l, i, e)) && i !in l.invitations && e.binding == i.binding && e.invitationId == Some(i.id)
    ensures AnswerTo(l, i) == Admitted
  {
    var l' := Extended(l, i, e);
    assert i in l'.invitations && forall j :: j in l.invitations ==> j in l'.invitations;
    assert e in l'.events && forall f :: f in l.events ==> f in l'.events;
    assert UniqueInvitations(l'.invitations) && ReferencesAgree(l'.invitations, l'.events);
    assert OneFingerprint(InvitationBindings(l'.invitations) + EventBindings(l'.events));
    hide Coherent;
    assert !Stores(l.invitations, i.id) && !OwnsDigest(l.invitations, i.tokenDigest);
    assert !AuditedOtherwise(l.events, i);
    assert InvitationBindings(l'.invitations) + EventBindings(l'.events) ==
           InvitationBindings(l.invitations) + EventBindings(l.events) + {i.binding, e.binding} by {
      MoreBindings(l, i, e);
    }
    hide InvitationBindings, EventBindings;
    forall c | c in InvitationBindings(l.invitations) + EventBindings(l.events) && c.version == i.binding.version
      ensures c == i.binding
    {
      assert c in InvitationBindings(l'.invitations) + EventBindings(l'.events);
    }
  }

  /******* Replays and conflicts *******/

  lemma OtherBindingIsBound(l: Ledger, i: Invitation, j: Invitation)
    requires OneFingerprint(InvitationBindings(l.invitations) + EventBindings(l.events)) && i in l.invitations
    requires j.binding.version == i.binding.version && j.binding != i.binding
    ensures BoundOtherwise(l, j.binding) && j !in l.invitations
  {
    assert i.binding in InvitationBindings(l.invitations);
    assert j in l.invitations ==> j.binding in InvitationBindings(l.invitations);
    hide InvitationBindings, EventBindings;
  }

  /** Once admitted, the same request is an exact replay and any other request for the
      identity, the digest or the contract version is refused. */
  lemma AdmittedIsPermanent(l: Ledger, i: Invitation, j: Invitation)
    requires Coherent(l) && i in l.invitations
    ensures AnswerTo(l, i) == ExactReplay
    ensures j != i && j.id == i.id ==> AnswerTo(l, j) == IdentityConflict
    ensures j.id != i.id && j.tokenDigest == i.tokenDigest ==> AnswerTo(l, j) in {IdentityConflict, TokenDigestConflict}
    ensures j.binding.version == i.binding.version && j.binding != i.binding ==> AnswerTo(l, j) !in {Admitted, ExactReplay}
  {
    hide RevocationsStored, UniqueEvents, ReferencesAgree, RevocationsAudited, CreationsAudited, ReissuesMatched, OneFingerprint,
         InvitationBindings, EventBindings, BoundOtherwise, AuditedOtherwise;
    assert Stores(l.invitations, i.id) && OwnsDigest(l.invitations, i.tokenDigest);
    if j.binding.version == i.binding.version && j.binding != i.binding {
      OtherBindingIsBound(l, i, j);
    }
    assert UniqueInvitations(l.invitations);
    hide Coherent;
  }

  /** Growth of the ledger never turns a refusal or a replay into an admission. */
  lemma RefusalsPersist(l: Ledger, l': Ledger, i: Invitation)
    requires l.invitations <= l'.invitations && l.events <= l'.events
    requires AnswerTo(l', i) == Admitted
    ensures AnswerTo(l, i) == Admitted
  {
    assert forall c :: c in InvitationBindings(l.invitations) ==> c in InvitationBindings(l'.invitations);
    assert forall c :: c in EventBindings(l.events) ==> c in EventBindings(l'.events);
    hide InvitationBindings, EventBindings;
    assert Stores(l.invitations, i.id) ==> Stores(l'.invitations, i.id);
    assert AuditedOtherwise(l.events, i) ==> AuditedOtherwise(l'.events, i);
    assert OwnsDigest(l.invitations, i.tokenDigest) ==> OwnsDigest(l'.invitations, i.tokenDigest);
    assert BoundOtherwise(l, i.binding) ==> BoundOtherwise(l', i.binding);
  }

  /** The first invitation of an empty ledger is admitted, with the first sequence and id. */
  lemma EmptyLedgerAdmits(i: Invitation)
    ensures Coherent(Ledger({}, {}, {})) && AnswerTo(Ledger({}, {}, {}), i) == Admitted
    ensures IsNextEvent(Ledger({}, {}, {}), i, IssuanceEvent(Canonical(1), 1, i))
  {
    var l := Ledger({}, {}, {});
    assert SequencesOf(l.events) == {} && IdsOf(l.events) == {};
    assert InvitationBindings(l.invitations) + EventBindings(l.events) == {};
    assert FirstFree({}, 1, Canonical(1), 0);
    hide Canonical;
  }
}
