/** What it means for stored invitations, revocations and audit events to fit together.
    Stated on sets of rows, so no row order can matter. */
module LedgerRules {
  import opened Wrappers
  import opened LedgerRecords

  datatype Ledger = Ledger(invitations: set<Invitation>, revocations: set<Revocation>, events: set<Event>)

  predicate IsCreation(e: Event) {
    e.eventType == INVITATION_ISSUED || e.eventType == INVITATION_REISSUED
  }

  predicate IsRevoking(e: Event) {
    e.eventType == INVITATION_REVOKED
  }

  ghost predicate UniqueInvitations(invitations: set<Invitation>) {
    forall a, b :: a in invitations && b in invitations && (a.id == b.id || a.tokenDigest == b.tokenDigest) ==> a == b
  }

  /** One fingerprint for each contract version, wherever it is mentioned. */
  ghost predicate OneFingerprint(bindings: set<Binding>) {
    forall a, b :: a in bindings && b in bindings && a.version == b.version ==> a == b
  }

  function InvitationBindings(invitations: set<Invitation>): set<Binding> {
    set i | i in invitations :: i.binding
  }

  function EventBindings(events: set<Event>): set<Binding> {
    set e | e in events :: e.binding
  }

  ghost predicate RevocationsStored(invitations: set<Invitation>, revocations: set<Revocation>) {
    && (forall r, s :: r in revocations && s in revocations && r.invitationId == s.invitationId ==> r == s)
    && (forall r :: r in revocations ==>
          exists i :: i in invitations && i.id == r.invitationId && i.issuedAt <= r.revokedAt)
  }

  ghost predicate UniqueEvents(events: set<Event>) {
    forall e, f :: e in events && f in events && (e.eventId == f.eventId || e.sequence == f.sequence) ==> e == f
  }

  predicate SameTarget(e: Event, f: Event) {
    e.invitationId.Some? && e.invitationId == f.invitationId
  }

  /** Events that name one invitation carry one binding, that of the invitation when it is
      stored; only a rejection may name an invitation that is not. */
  ghost predicate ReferencesAgree(invitations: set<Invitation>, events: set<Event>) {
    && (forall e, f :: e in events && f in events && SameTarget(e, f) ==> e.binding == f.binding)
    && (forall e, i :: e in events && i in invitations && e.invitationId == Some(i.id) ==> e.binding == i.binding)
    && (forall e :: e in events && e.invitationId.Some? && e.outcome != REJECTED ==> Stores(invitations, e.invitationId.value))
  }

  ghost predicate Stores(invitations: set<Invitation>, id: Id) {
    exists i :: i in invitations && i.id == id
  }

  /** The event records the revocation of a stored invitation. */
  predicate RecordsRevocation(e: Event, i: Invitation, r: Revocation) {
    && e.eventType == INVITATION_REVOKED && e.occurredAt == r.revokedAt && e.binding == i.binding
    && e.outcome == SUCCEEDED && e.invitationId == Some(i.id) && e.confirmationId.None?
    && e.reason == Some(Revoked(r.reason))
  }

  predicate RecordsIssuance(e: Event, i: Invitation) {
    && e.eventType == INVITATION_ISSUED && e.occurredAt == i.issuedAt && e.binding == i.binding
    && e.outcome == SUCCEEDED && e.invitationId == Some(i.id) && e.confirmationId.None? && e.reason.None?
  }

  predicate RecordsReissuance(e: Event, i: Invitation) {
    && e.eventType == INVITATION_REISSUED && e.occurredAt == i.issuedAt && e.binding == i.binding
    && e.outcome == SUCCEEDED && e.invitationId == Some(i.id) && e.confirmationId.None?
    && e.reason == Some(Revoked(REISSUED))
  }

  predicate RecordsCreation(e: Event, i: Invitation) {
    RecordsIssuance(e, i) || RecordsReissuance(e, i)
  }

  /** Events that record the life of an invitation obey the row rules, whatever the reason of a
      revocation: nothing the ledger appends is refused for its own shape. */
  lemma RecordsObeyRules(e: Event, i: Invitation, r: Revocation)
    requires e.sequence >= 1 && e.occurredAt >= 0
    requires RecordsRevocation(e, i, r) || RecordsIssuance(e, i) || RecordsReissuance(e, i)
    ensures AuditRules(e)
  {
  }

  /** The row rules, read from the outcome and the reason: they leave one or two types of event,
      and settle which identities an event carries. */
  lemma RowRulesByOutcome(e: Event)
    ensures AuditRules(e) <==>
            && e.sequence >= 1 && e.occurredAt >= 0
            && match (e.outcome, e.reason)
               case (REJECTED, Some(_)) =>
                 && (e.eventType == INVITATION_REJECTED || e.eventType == DECISION_REJECTED)
                 && e.invitationId.Some? && e.confirmationId.None?
               case (REPLAYED, None) => e.eventType == DECISION_REPLAYED && e.invitationId.Some? && e.confirmationId.Some?
               case (SUCCEEDED, None) =>
                 && e.eventType == (if e.confirmationId.Some? then DECISION_RECORDED else INVITATION_ISSUED)
                 && e.invitationId.Some?
               case (SUCCEEDED, Some(Revoked(reason))) =>
                 && e.confirmationId.None?
                 && match e.eventType {
                      case INVITATION_REVOKED => e.invitationId.Some?
                      case INVITATION_REISSUED => e.invitationId.Some? && reason == REISSUED
                      case CONTRACT_WAS_SUPERSEDED => e.invitationId.None? && reason == CONTRACT_SUPERSEDED
                      case _ => false
                    }
               case _ => false
  {
  }

  /** A revocation event records one stored revocation, and is its only record. */
  ghost predicate RevokingEventFits(l: Ledger, e: Event) {
    && (exists i, r :: i in l.invitations && r in l.revocations && r.invitationId == i.id && RecordsRevocation(e, i, r))
    && forall f :: f in l.events && IsRevoking(f) && SameTarget(e, f) ==> e == f
  }

  ghost predicate RevocationRecorded(l: Ledger, r: Revocation) {
    exists e :: e in l.events && IsRevoking(e) && e.invitationId == Some(r.invitationId)
  }

  /** Revocations and revocation events correspond one to one. */
  ghost predicate RevocationsAudited(l: Ledger) {
    && (forall e :: e in l.events && IsRevoking(e) ==> RevokingEventFits(l, e))
    && (forall r :: r in l.revocations ==> RevocationRecorded(l, r))
  }

  /** A creation event records one stored invitation, and is its only record. */
  ghost predicate CreationEventFits(l: Ledger, e: Event) {
    && (exists i :: i in l.invitations && RecordsCreation(e, i))
    && forall f :: f in l.events && IsCreation(f) && SameTarget(e, f) ==> e == f
  }

  ghost predicate CreationRecorded(l: Ledger, i: Invitation) {
    exists e :: e in l.events && IsCreation(e) && e.invitationId == Some(i.id)
  }

  /** Invitations and creation events correspond one to one. */
  ghost predicate CreationsAudited(l: Ledger) {
    && (forall e :: e in l.events && IsCreation(e) ==> CreationEventFits(l, e))
    && (forall i :: i in l.invitations ==> CreationRecorded(l, i))
  }

  /** The invitation came into being by reissue. */
  ghost predicate Reissued(l: Ledger, i: Invitation) {
    i in l.invitations && exists e :: e in l.events && e.eventType == INVITATION_REISSUED && e.invitationId == Some(i.id)
  }

  /** s was revoked as REISSUED, under the same contract binding, at the instant i was issued. */
  ghost predicate IsSource(l: Ledger, i: Invitation, s: Invitation) {
    && s in l.invitations && s.id != i.id && s.binding == i.binding && s.issuedAt <= i.issuedAt
    && exists r :: r in l.revocations && r.invitationId == s.id && r.revokedAt == i.issuedAt && r.reason == REISSUED
  }

  /** Every reissued invitation has one source, no source serves two, and every REISSUED
      revocation is the source of something. */
  ghost predicate ReissuesMatched(l: Ledger) {
    && (forall i :: Reissued(l, i) ==> exists s :: IsSource(l, i, s))
    && (forall i, s, t :: Reissued(l, i) && IsSource(l, i, s) && IsSource(l, i, t) ==> s == t)
    && (forall i, j, s :: Reissued(l, i) && Reissued(l, j) && IsSource(l, i, s) && IsSource(l, j, s) ==> i == j)
    && (forall r :: r in l.revocations && r.reason == REISSUED ==>
          exists i, s :: Reissued(l, i) && IsSource(l, i, s) && s.id == r.invitationId)
  }

  ghost predicate Coherent(l: Ledger) {
    && UniqueInvitations(l.invitations)
    && OneFingerprint(InvitationBindings(l.invitations) + EventBindings(l.events))
    && RevocationsStored(l.invitations, l.revocations)
    && UniqueEvents(l.events)
    && ReferencesAgree(l.invitations, l.events)
    && RevocationsAudited(l)
    && CreationsAudited(l)
    && ReissuesMatched(l)
  }

  /** Each row also obeys the rules of its own kind. */
  predicate RowsValid(l: Ledger) {
    && (forall i :: i in l.invitations ==> InvitationRules(i))
    && (forall r :: r in l.revocations ==> RevocationRules(r))
    && (forall e :: e in l.events ==> AuditRules(e))
  }

  /** A stored revocation follows the issue of a stored invitation, and so obeys its row rules. */
  lemma StoredRevocationsAreValid(l: Ledger, r: Revocation)
    requires RevocationsStored(l.invitations, l.revocations) && r in l.revocations
    requires forall i :: i in l.invitations ==> InvitationRules(i)
    ensures RevocationRules(r)
  {
    var i :| i in l.invitations && i.id == r.invitationId && i.issuedAt <= r.revokedAt;
    assert InvitationRules(i);
  }
}
