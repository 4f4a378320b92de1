/** Rows of the confirmation ledger. */
module LedgerRecords {
  import opened Wrappers

  /** Names, subjects and digests, compared only for equality. */
  type Id = int

  const SHA256_V1: Id := 1

  datatype Version = Version(contractId: Id, contractVersion: Id)

  datatype Binding = Binding(version: Version, fingerprint: Id)

  datatype Invitation = Invitation(
    id: Id,
    binding: Binding,
    tokenDigest: Id,
    digestVersion: Id,
    organization: Id,
    issuedBy: Id,
    issuedAt: int,
    expiresAt: int)

  datatype RevocationReason = MANUAL | REISSUED | CONTRACT_SUPERSEDED | SECURITY_RESPONSE

  datatype Revocation = Revocation(invitationId: Id, revokedAt: int, revokedBy: Id, reason: RevocationReason)

  datatype EventType =
    | INVITATION_ISSUED
    | INVITATION_REVOKED
    | INVITATION_REISSUED
    | INVITATION_REJECTED
    | DECISION_RECORDED
    | DECISION_REPLAYED
    | DECISION_REJECTED
    | CONTRACT_WAS_SUPERSEDED

  datatype Outcome = SUCCEEDED | REPLAYED | REJECTED

  /** Machine reasons; the revocation reasons are the ones with a meaning here. */
  datatype ReasonCode = Revoked(reason: RevocationReason) | Machine(code: Id)

  datatype Adapter = Unstated | Memory | Sqlite | Postgresql

  datatype Event = Event(
    eventId: string,
    sequence: int,
    eventType: EventType,
    occurredAt: int,
    binding: Binding,
    outcome: Outcome,
    invitationId: Option<Id>,
    confirmationId: Option<Id>,
    actor: Option<Id>,
    reason: Option<ReasonCode>,
    trace: Option<Id>,
    adapter: Adapter)

  /** Which fields and outcome an event type demands. */
  predicate AuditRules(e: Event) {
    && e.sequence >= 1 && e.occurredAt >= 0
    && e.outcome == (match e.eventType
                     case INVITATION_REJECTED | DECISION_REJECTED => REJECTED
                     case DECISION_REPLAYED => REPLAYED
                     case _ => SUCCEEDED)
    && (e.invitationId.Some? <==> e.eventType != CONTRACT_WAS_SUPERSEDED)
    && (e.confirmationId.Some? <==> e.eventType in {DECISION_RECORDED, DECISION_REPLAYED})
    && match e.eventType
       case INVITATION_ISSUED | DECISION_RECORDED | DECISION_REPLAYED => e.reason.None?
       case INVITATION_REJECTED | DECISION_REJECTED => e.reason.Some?
       case INVITATION_REVOKED => e.reason.Some? && e.reason.value.Revoked?
       case INVITATION_REISSUED => e.reason == Some(Revoked(REISSUED))
       case CONTRACT_WAS_SUPERSEDED => e.reason == Some(Revoked(CONTRACT_SUPERSEDED))
  }

  predicate InvitationRules(i: Invitation) {
    i.digestVersion == SHA256_V1 && 0 <= i.issuedAt < i.expiresAt
  }

  predicate RevocationRules(r: Revocation) {
    r.revokedAt >= 0
  }
}
