/** The audit trail of a coherent ledger: each stored fact has one event that tells it, field by
    field, and each event that tells of a change has its fact. */
module AuditTrail {
  import opened Wrappers
  import opened LedgerRecords
  import opened LedgerRules

  lemma RevokingRecord(l: Ledger, e: Event) returns (i: Invitation, r: Revocation)
    requires RevokingEventFits(l, e)
    ensures i in l.invitations && r in l.revocations && r.invitationId == i.id && RecordsRevocation(e, i, r)
    ensures forall f :: f in l.events && IsRevoking(f) && SameTarget(e, f) ==> e == f
  {
    i, r :| i in l.invitations && r in l.revocations && r.invitationId == i.id && RecordsRevocation(e, i, r);
  }

  lemma RecordOfRevocation(l: Ledger, r: Revocation) returns (e: Event)
    requires RevocationsAudited(l) && r in l.revocations
    ensures e in l.events && IsRevoking(e) && e.invitationId == Some(r.invitationId) && RevokingEventFits(l, e)
  {
    hide RevokingEventFits;
    assert RevocationRecorded(l, r);
    e :| e in l.events && IsRevoking(e) && e.invitationId == Some(r.invitationId);
  }

  /** A revocation names a stored invitation no younger than itself, is the only one that does,
      and is told by just one event, with its time, its reason and the invitation's binding. */
  lemma RevocationIsTold(l: Ledger, r: Revocation) returns (i: Invitation, e: Event)
    requires Coherent(l) && r in l.revocations
    ensures i in l.invitations && i.id == r.invitationId && i.issuedAt <= r.revokedAt
    ensures e in l.events && e.eventType == INVITATION_REVOKED && e.invitationId == Some(i.id)
    ensures e.occurredAt == r.revokedAt && e.reason == Some(Revoked(r.reason)) && e.binding == i.binding && e.outcome == SUCCEEDED
    ensures forall s :: s in l.revocations && s.invitationId == r.invitationId ==> s == r
    ensures forall f :: f in l.events && f.eventType == INVITATION_REVOKED && f.invitationId == Some(i.id) ==> f == e
  {
    hide OneFingerprint, UniqueEvents, ReferencesAgree, RevocationsAudited, CreationsAudited, ReissuesMatched, InvitationBindings,
         EventBindings, RevokingEventFits;
    e := RecordOfRevocation(l, r);
    var s: Revocation;
    i, s := RevokingRecord(l, e);
    assert s == r;
    var j :| j in l.invitations && j.id == r.invitationId && j.issuedAt <= r.revokedAt;
    assert i == j;
    hide Coherent, RevocationsStored, UniqueInvitations;
  }

  /** A revocation event has its revocation. */
  lemma RevokingTells(l: Ledger, e: Event) returns (r: Revocation)
    requires Coherent(l) && e in l.events && e.eventType == INVITATION_REVOKED
    ensures r in l.revocations && e.invitationId == Some(r.invitationId)
    ensures e.occurredAt == r.revokedAt && e.reason == Some(Revoked(r.reason))
  {
    hide UniqueInvitations, OneFingerprint, RevocationsStored, UniqueEvents, ReferencesAgree, CreationsAudited, ReissuesMatched,
         InvitationBindings, EventBindings, RevocationRecorded, RevokingEventFits;
    var i: Invitation;
    i, r := RevokingRecord(l, e);
  }

  lemma CreationRecord(l: Ledger, e: Event) returns (i: Invitation)
    requires CreationEventFits(l, e)
    ensures i in l.invitations && RecordsCreation(e, i)
    ensures forall f :: f in l.events && IsCreation(f) && SameTarget(e, f) ==> e == f
  {
    i :| i in l.invitations && RecordsCreation(e, i);
  }

  lemma RecordOfCreation(l: Ledger, i: Invitation) returns (e: Event)
    requires CreationsAudited(l) && i in l.invitations
    ensures e in l.events && IsCreation(e) && e.invitationId == Some(i.id) && CreationEventFits(l, e)
  {
    hide CreationEventFits;
    assert CreationRecorded(l, i);
    e :| e in l.events && IsCreation(e) && e.invitationId == Some(i.id);
  }

  /** An invitation is told by just one event, an issue or a reissue, with its time and binding. */
  lemma InvitationIsTold(l: Ledger, i: Invitation) returns (e: Event)
    requires Coherent(l) && i in l.invitations
    ensures e in l.events && e.eventType in {INVITATION_ISSUED, INVITATION_REISSUED} && e.invitationId == Some(i.id)
    ensures e.occurredAt == i.issuedAt && e.binding == i.binding && e.outcome == SUCCEEDED && e.confirmationId.None?
    ensures e.reason == if e.eventType.INVITATION_ISSUED? then None else Some(Revoked(REISSUED))
    ensures forall f ::
      f in l.events && f.eventType in {INVITATION_ISSUED, INVITATION_REISSUED} && f.invitationId == Some(i.id) ==> f == e
  {
    hide OneFingerprint, RevocationsStored, UniqueEvents, ReferencesAgree, RevocationsAudited, CreationsAudited, ReissuesMatched,
         InvitationBindings, EventBindings, CreationEventFits;
    e := RecordOfCreation(l, i);
    var j := CreationRecord(l, e);
    assert j == i;
    hide Coherent;
  }

  /** An issue or a reissue has its invitation. */
  lemma CreationTells(l: Ledger, e: Event) returns (i: Invitation)
    requires Coherent(l) && e in l.events && e.eventType in {INVITATION_ISSUED, INVITATION_REISSUED}
    ensures i in l.invitations && e.invitationId == Some(i.id) && e.occurredAt == i.issuedAt && e.binding == i.binding
  {
    hide UniqueInvitations, OneFingerprint, RevocationsStored, UniqueEvents, ReferencesAgree, RevocationsAudited, ReissuesMatched,
         InvitationBindings, EventBindings, CreationRecorded, CreationEventFits;
    i := CreationRecord(l, e);
  }

  /** A reissue replaces another stored invitation of the same contract, no younger, that was
      revoked for it at that very instant; it replaces no other, and no other reissue replaces it. */
  lemma ReissueReplaces(l: Ledger, e: Event) returns (i: Invitation, s: Invitation, r: Revocation)
    requires Coherent(l) && e in l.events && e.eventType == INVITATION_REISSUED
    ensures i in l.invitations && e.invitationId == Some(i.id)
    ensures s in l.invitations && s.id != i.id && s.binding == i.binding && s.issuedAt <= i.issuedAt
    ensures r in l.revocations && r.invitationId == s.id && r.revokedAt == i.issuedAt && r.reason == REISSUED
    ensures forall t :: IsSource(l, i, t) <==> t == s
    ensures forall j :: Reissued(l, j) && IsSource(l, j, s) ==> j == i
  {
    hide UniqueInvitations, OneFingerprint, RevocationsStored, UniqueEvents, ReferencesAgree, RevocationsAudited, CreationsAudited,
         InvitationBindings, EventBindings, IsSource;
    i := CreationTells(l, e);
    assert Reissued(l, i);
    s := TheSource(l, i);
    r := SourceRevocation(l, i, s);
    hide ReissuesMatched, Reissued;
  }

  lemma TheSource(l: Ledger, i: Invitation) returns (s: Invitation)
    requires ReissuesMatched(l) && Reissued(l, i)
    ensures IsSource(l, i, s) && forall t :: IsSource(l, i, t) ==> t == s
    ensures forall j :: Reissued(l, j) && IsSource(l, j, s) ==> j == i
  {
    hide IsSource, Reissued;
    s :| IsSource(l, i, s);
  }

  lemma SourceRevocation(l: Ledger, i: Invitation, s: Invitation) returns (r: Revocation)
    requires IsSource(l, i, s)
    ensures s in l.invitations && s.id != i.id && s.binding == i.binding && s.issuedAt <= i.issuedAt
    ensures r in l.revocations && r.invitationId == s.id && r.revokedAt == i.issuedAt && r.reason == REISSUED
  {
    r :| r in l.revocations && r.invitationId == s.id && r.revokedAt == i.issuedAt && r.reason == REISSUED;
  }

  /** And every revocation for a reissue has the reissued invitation that took its place. */
  lemma RevokedIsReplaced(l: Ledger, r: Revocation) returns (e: Event, i: Invitation)
    requires Coherent(l) && r in l.revocations && r.reason == REISSUED
    ensures e in l.events && e.eventType == INVITATION_REISSUED && e.invitationId == Some(i.id)
    ensures i in l.invitations && i.id != r.invitationId && i.issuedAt == r.revokedAt
  {
    hide UniqueInvitations, OneFingerprint, UniqueEvents, ReferencesAgree, RevocationsAudited, CreationsAudited,
         InvitationBindings, EventBindings;
    assert ReissuesMatched(l) && RevocationsStored(l.invitations, l.revocations);
    hide Coherent;
    var j, s :| Reissued(l, j) && IsSource(l, j, s) && s.id == r.invitationId;
    i := j;
    e :| e in l.events && e.eventType == INVITATION_REISSUED && e.invitationId == Some(i.id);
  }

  /** Whatever names an invitation agrees on its contract, and only a rejection names one that is
      not stored. One contract version has one fingerprint in all the ledger. */
  lemma NamesAgree(l: Ledger, e: Event, f: Event)
    requires Coherent(l) && e in l.events && f in l.events
    ensures e.invitationId.Some? && e.invitationId == f.invitationId ==> e.binding == f.binding
    ensures e.invitationId.Some? && e.outcome != REJECTED ==>
      exists i :: i in l.invitations && e.invitationId == Some(i.id) && e.binding == i.binding
    ensures e.binding.version == f.binding.version ==> e.binding == f.binding
    ensures forall i :: i in l.invitations && i.binding.version == e.binding.version ==> i.binding == e.binding
    ensures (e.eventId == f.eventId || e.sequence == f.sequence) ==> e == f
  {
    hide UniqueInvitations, RevocationsStored, RevocationsAudited, CreationsAudited, ReissuesMatched;
    assert e.binding in EventBindings(l.events) && f.binding in EventBindings(l.events);
    forall i | i in l.invitations
      ensures i.binding in InvitationBindings(l.invitations)
    {
    }
    hide InvitationBindings, EventBindings;
    if e.invitationId.Some? && e.outcome != REJECTED {
      assert Stores(l.invitations, e.invitationId.value);
      var i :| i in l.invitations && i.id == e.invitationId.value;
      assert e.invitationId == Some(i.id) && e.binding == i.binding;
    }
  }

  /** No two invitations share an identity or a token, nor differ over a contract version. */
  lemma InvitationsDiffer(l: Ledger, i: Invitation, j: Invitation)
    requires Coherent(l) && i in l.invitations && j in l.invitations && i != j
    ensures i.id != j.id && i.tokenDigest != j.tokenDigest
    ensures i.binding.version == j.binding.version ==> i.binding == j.binding
  {
    hide RevocationsStored, UniqueEvents, ReferencesAgree, RevocationsAudited, CreationsAudited, ReissuesMatched;
    assert UniqueInvitations(l.invitations);
    assert OneFingerprint(InvitationBindings(l.invitations) + EventBindings(l.events));
    hide Coherent;
    assert i.binding in InvitationBindings(l.invitations) && j.binding in InvitationBindings(l.invitations);
  }

  /******* Events that neither create nor revoke *******/

  function WithEvent(l: Ledger, e: Event): Ledger {
    l.(events := l.events + {e})
  }

  ghost predicate Unbound(l: Ledger, b: Binding) {
    && (forall i :: i in l.invitations && i.binding.version == b.version ==> i.binding == b)
    && (forall f :: f in l.events && f.binding.version == b.version ==> f.binding == b)
  }

  /** It has an identity and a number of its own, contradicts no binding, and names no invitation,
      or one under its binding that is stored unless the event is a rejection. */
  ghost predicate FitsIn(l: Ledger, e: Event) {
    && (forall f :: f in l.events ==> f.eventId != e.eventId && f.sequence != e.sequence)
    && Unbound(l, e.binding)
    && (e.invitationId.Some? ==>
          && (forall f :: f in l.events && f.invitationId == e.invitationId ==> f.binding == e.binding)
          && (forall i :: i in l.invitations && e.invitationId == Some(i.id) ==> i.binding == e.binding)
          && (e.outcome != REJECTED ==> exists i :: i in l.invitations && e.invitationId == Some(i.id)))
  }

  lemma StillUnique(l: Ledger, e: Event)
    requires UniqueEvents(l.events) && e !in l.events
    ensures UniqueEvents(l.events + {e}) <==> forall f :: f in l.events ==> f.eventId != e.eventId && f.sequence != e.sequence
  {
    if UniqueEvents(l.events + {e}) {
      assert forall f :: f in l.events ==> f in l.events + {e} && f != e;
    }
  }

  lemma StillOneFingerprint(l: Ledger, e: Event)
    requires OneFingerprint(InvitationBindings(l.invitations) + EventBindings(l.events))
    ensures OneFingerprint(InvitationBindings(l.invitations) + EventBindings(l.events + {e})) <==> Unbound(l, e.binding)
  {
    assert EventBindings(l.events + {e}) == EventBindings(l.events) + {e.binding};
    var all := InvitationBindings(l.invitations) + EventBindings(l.events);
    assert InvitationBindings(l.invitations) + EventBindings(l.events + {e}) == all + {e.binding};
    assert Unbound(l, e.binding) <==> forall b :: b in all && b.version == e.binding.version ==> b == e.binding by {
      assert forall i :: i in l.invitations ==> i.binding in all;
      assert forall f :: f in l.events ==> f.binding in all;
    }
    hide InvitationBindings, EventBindings, Unbound;
  }

  lemma StillAgree(l: Ledger, e: Event)
    requires ReferencesAgree(l.invitations, l.events) && e !in l.events
    ensures ReferencesAgree(l.invitations, l.events + {e}) <==>
      (e.invitationId.Some? ==>
         && (forall f :: f in l.events && f.invitationId == e.invitationId ==> f.binding == e.binding)
         && (forall i :: i in l.invitations && e.invitationId == Some(i.id) ==> i.binding == e.binding)
         && (e.outcome != REJECTED ==> exists i :: i in l.invitations && e.invitationId == Some(i.id)))
  {
    if ReferencesAgree(l.invitations, l.events + {e}) {
      assert forall f :: f in l.events ==> f in l.events + {e};
      assert e in l.events + {e};
    }
    assert e.invitationId.Some? ==>
        (Stores(l.invitations, e.invitationId.value) <==> exists i :: i in l.invitations && e.invitationId == Some(i.id));
    hide Stores;
  }

  lemma RevokingStillFits(l: Ledger, e: Event, f: Event)
    requires RevokingEventFits(l, f) && !IsRevoking(e)
    ensures RevokingEventFits(WithEvent(l, e), f)
  {
    var i, r := RevokingRecord(l, f);
  }

  lemma CreationStillFits(l: Ledger, e: Event, f: Event)
    requires CreationEventFits(l, f) && !IsCreation(e)
    ensures CreationEventFits(WithEvent(l, e), f)
  {
    var i := CreationRecord(l, f);
  }

  lemma StillRecorded(l: Ledger, e: Event)
    ensures forall r :: RevocationRecorded(l, r) ==> RevocationRecorded(WithEvent(l, e), r)
    ensures forall i :: CreationRecorded(l, i) ==> CreationRecorded(WithEvent(l, e), i)
  {
    assert forall f :: f in l.events ==> f in WithEvent(l, e).events;
  }

  lemma StillAudited(l: Ledger, e: Event)
    requires RevocationsAudited(l) && CreationsAudited(l) && !IsCreation(e) && !IsRevoking(e)
    ensures RevocationsAudited(WithEvent(l, e)) && CreationsAudited(WithEvent(l, e))
  {
    hide RevokingEventFits, CreationEventFits, RevocationRecorded, CreationRecorded;
    var l' := WithEvent(l, e);
    StillRecorded(l, e);
    forall f | f in l'.events && IsRevoking(f)
      ensures RevokingEventFits(l', f)
    {
      RevokingStillFits(l, e, f);
    }
    forall f | f in l'.events && IsCreation(f)
      ensures CreationEventFits(l', f)
    {
      CreationStillFits(l, e, f);
    }
  }

  /** Reissues and their sources stay what they were. */
  lemma SameReissues(l: Ledger, l': Ledger, i: Invitation, s: Invitation, e: Event)
    requires l'.invitations == l.invitations && l'.events == l.events + {e} && !IsCreation(e)
    requires l.revocations <= l'.revocations && forall r :: r in l'.revocations - l.revocations ==> r.reason != REISSUED
    ensures Reissued(l', i) <==> Reissued(l, i)
    ensures IsSource(l', i, s) <==> IsSource(l, i, s)
  {
    if f :| f in l'.events && f.eventType == INVITATION_REISSUED && f.invitationId == Some(i.id) {
      assert f in l.events;
    }
    if f :| f in l.events && f.eventType == INVITATION_REISSUED && f.invitationId == Some(i.id) {
      assert f in l'.events;
    }
    if r :| r in l'.revocations && r.invitationId == s.id && r.revokedAt == i.issuedAt && r.reason == REISSUED {
      assert r in l.revocations;
    }
  }

  lemma StillMatched(l: Ledger, l': Ledger, e: Event)
    requires ReissuesMatched(l) && l'.invitations == l.invitations && l'.events == l.events + {e} && !IsCreation(e)
    requires l.revocations <= l'.revocations && forall r :: r in l'.revocations - l.revocations ==> r.reason != REISSUED
    ensures ReissuesMatched(l')
  {
    hide Reissued, IsSource;
    forall i
      ensures Reissued(l', i) <==> Reissued(l, i)
    {
      SameReissues(l, l', i, i, e);
    }
    forall i, s
      ensures IsSource(l', i, s) <==> IsSource(l, i, s)
    {
      SameReissues(l, l', i, s, e);
    }
    assert forall r :: r in l'.revocations && r.reason == REISSUED ==> r in l.revocations;
  }

  /** A rejection, a decision or a contract's end goes into a coherent ledger exactly when it fits
      in: nothing else about it, or about the rest of the ledger, matters. */
  lemma OtherEventsFitExactly(l: Ledger, e: Event)
    requires Coherent(l) && e !in l.events
    requires e.eventType !in {INVITATION_ISSUED, INVITATION_REISSUED, INVITATION_REVOKED}
    ensures Coherent(WithEvent(l, e)) <==> FitsIn(l, e)
  {
    hide UniqueInvitations, OneFingerprint, RevocationsStored, UniqueEvents, ReferencesAgree, RevocationsAudited, CreationsAudited,
         ReissuesMatched, InvitationBindings, EventBindings, Unbound;
    StillUnique(l, e);
    StillOneFingerprint(l, e);
    StillAgree(l, e);
    StillAudited(l, e);
    StillMatched(l, WithEvent(l, e), e);
  }

  /******* Revocations *******/

  function WithRevocation(l: Ledger, r: Revocation, e: Event): Ledger {
    Ledger(l.invitations, l.revocations + {r}, l.events + {e})
  }

  lemma RevocationStored(l: Ledger, i: Invitation, r: Revocation)
    requires RevocationsStored(l.invitations, l.revocations) && i in l.invitations && r.invitationId == i.id
    requires i.issuedAt <= r.revokedAt && forall s :: s in l.revocations ==> s.invitationId != i.id
    ensures RevocationsStored(l.invitations, l.revocations + {r})
  {
  }

  lemma RevocationAudited(l: Ledger, i: Invitation, r: Revocation, e: Event)
    requires RevocationsAudited(l) && i in l.invitations && r.invitationId == i.id && RecordsRevocation(e, i, r)
    requires forall s :: s in l.revocations ==> s.invitationId != i.id
    ensures RevocationsAudited(WithRevocation(l, r, e))
  {
    hide RevokingEventFits, RevocationRecorded;
    var l' := WithRevocation(l, r, e);
    forall f | f in l.events && IsRevoking(f)
      ensures RevokingEventFits(l', f) && !SameTarget(f, e)
    {
      RevocationApart(l, i, r, e, f);
    }
    NewlyRevoked(l, i, r, e);
    forall s | s in l'.revocations
      ensures RevocationRecorded(l', s)
    {
      if s != r {
        RecordedStill(l, r, e, s);
      }
    }
  }

  lemma RevocationApart(l: Ledger, i: Invitation, r: Revocation, e: Event, f: Event)
    requires RevokingEventFits(l, f) && RecordsRevocation(e, i, r) && forall s :: s in l.revocations ==> s.invitationId != i.id
    ensures RevokingEventFits(WithRevocation(l, r, e), f) && !SameTarget(f, e)
  {
    var j, s := RevokingRecord(l, f);
    assert s in WithRevocation(l, r, e).revocations;
  }

  lemma NewlyRevoked(l: Ledger, i: Invitation, r: Revocation, e: Event)
    requires i in l.invitations && r.invitationId == i.id && RecordsRevocation(e, i, r)
    requires forall f :: f in l.events && IsRevoking(f) ==> !SameTarget(f, e)
    ensures RevokingEventFits(WithRevocation(l, r, e), e) && RevocationRecorded(WithRevocation(l, r, e), r)
  {
    assert r in WithRevocation(l, r, e).revocations && e in WithRevocation(l, r, e).events;
  }

  lemma RecordedStill(l: Ledger, r: Revocation, e: Event, s: Revocation)
    requires RevocationsAudited(l) && s in l.revocations
    ensures RevocationRecorded(WithRevocation(l, r, e), s)
  {
    var f := RecordOfRevocation(l, s);
    assert f in WithRevocation(l, r, e).events;
  }

  lemma CreationsUntouched(l: Ledger, r: Revocation, e: Event)
    requires CreationsAudited(l) && !IsCreation(e)
    ensures CreationsAudited(WithRevocation(l, r, e))
  {
    hide CreationEventFits, CreationRecorded;
    var l' := WithRevocation(l, r, e);
    forall f | f in l'.events && IsCreation(f)
      ensures CreationEventFits(l', f)
    {
      FitsBeside(l, r, e, f);
    }
    forall i | i in l.invitations
      ensures CreationRecorded(l', i)
    {
      CreatedBeside(l, r, e, i);
    }
  }

  lemma FitsBeside(l: Ledger, r: Revocation, e: Event, f: Event)
    requires CreationEventFits(l, f) && !IsCreation(e)
    ensures CreationEventFits(WithRevocation(l, r, e), f)
  {
    var i := CreationRecord(l, f);
  }

  lemma CreatedBeside(l: Ledger, r: Revocation, e: Event, i: Invitation)
    requires CreationsAudited(l) && i in l.invitations
    ensures CreationRecorded(WithRevocation(l, r, e), i)
  {
    var f := RecordOfCreation(l, i);
    assert f in WithRevocation(l, r, e).events;
  }

  /** Any stored invitation not revoked yet may be revoked, from the instant of its issue on and
      for any reason but a reissue, with the event that tells it: the ledger stays coherent. */
  lemma RevocationIsAbsorbed(l: Ledger, i: Invitation, r: Revocation, e: Event)
    requires Coherent(l) && i in l.invitations && r.invitationId == i.id && r.reason != REISSUED && i.issuedAt <= r.revokedAt
    requires forall s :: s in l.revocations ==> s.invitationId != i.id
    requires RecordsRevocation(e, i, r) && forall f :: f in l.events ==> f.eventId != e.eventId && f.sequence != e.sequence
    ensures Coherent(WithRevocation(l, r, e))
  {
    hide UniqueInvitations, OneFingerprint, RevocationsStored, UniqueEvents, ReferencesAgree, RevocationsAudited, CreationsAudited,
         ReissuesMatched, InvitationBindings, EventBindings, Unbound;
    BindingOfStored(l, i);
    RevocationStored(l, i, r);
    StillUnique(l, e);
    StillOneFingerprint(l, e);
    StillAgree(l, e);
    RevocationAudited(l, i, r, e);
    CreationsUntouched(l, r, e);
    StillMatched(l, WithRevocation(l, r, e), e);
  }

  /** Nothing in the ledger contradicts a stored invitation. */
  lemma BindingOfStored(l: Ledger, i: Invitation)
    requires Coherent(l) && i in l.invitations
    ensures Unbound(l, i.binding)
    ensures forall f :: f in l.events && f.invitationId == Some(i.id) ==> f.binding == i.binding
    ensures forall j :: j in l.invitations && j.id == i.id ==> j == i
  {
    hide RevocationsStored, UniqueEvents, RevocationsAudited, CreationsAudited, ReissuesMatched;
    var all := InvitationBindings(l.invitations) + EventBindings(l.events);
    assert forall j :: j in l.invitations ==> j.binding in all;
    assert forall f :: f in l.events ==> f.binding in all;
    hide InvitationBindings, EventBindings;
  }
}
