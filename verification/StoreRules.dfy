/** The reference confirmation store as a state machine over its seven dictionaries. */
module StoreRules {
  import opened Wrappers
  import opened LedgerRecords

  datatype Choice = CONFIRM | REQUEST_CHANGES

  /** A rationale, by what the rules look at. */
  datatype Rationale = Rationale(text: Id, length: nat, blank: bool, holdsNul: bool)

  datatype Payload = Payload(choice: Choice, acknowledged: bool, rationale: Rationale)

  datatype Reviewer = Reviewer(issuer: Id, subject: Id, organization: Id)

  datatype Command = Command(
    operation: Id,
    key: Id,
    request: Id,
    tokenDigest: Id,
    confirmationId: Id,
    invitationId: Id,
    binding: Binding,
    reviewer: Reviewer,
    displayName: Id,
    payload: Payload,
    decidedAt: int)

  datatype Decision = Decision(
    confirmationId: Id,
    invitationId: Id,
    binding: Binding,
    reviewer: Reviewer,
    displayName: Id,
    payload: Payload,
    decidedAt: int,
    request: Id)

  datatype Operation = Operation(digest: Id, version: Version, key: Id, request: Id, confirmationId: Id, createdAt: int)

  datatype OperationKey = OperationKey(version: Version, key: Id)

  datatype StoreState = StoreState(
    invitations: map<Id, Invitation>,
    idByDigest: map<Id, Id>,
    bindings: map<Version, Binding>,
    decisionOf: map<Binding, Decision>,
    decisions: map<Id, Decision>,
    operations: map<Id, Operation>,
    operationByKey: map<OperationKey, Id>)

  datatype StoreError =
    | IdentityConflict
    | TokenDigestConflict
    | NotFound
    | Expired
    | Consumed
    | BindingMismatch
    | IdempotencyConflict
    | AlreadyRecorded
    | InvalidPayload

  datatype Written = Written(decision: Decision, replayed: bool)

  const EMPTY_STORE: StoreState := StoreState(map[], map[], map[], map[], map[], map[], map[])

  const RATIONALE_LIMIT: nat := 2000

  predicate PayloadAllowed(p: Payload) {
    && !p.rationale.holdsNul
    && p.rationale.length <= RATIONALE_LIMIT
    && (p.choice == CONFIRM ==> p.acknowledged)
    && (p.choice == REQUEST_CHANGES ==> !p.rationale.blank)
  }

  function KeyOf(c: Command): OperationKey {
    OperationKey(c.binding.version, c.key)
  }

  function DecisionFrom(c: Command): Decision {
    Decision(c.confirmationId, c.invitationId, c.binding, c.reviewer, c.displayName, c.payload, c.decidedAt, c.request)
  }

  function OperationFrom(c: Command): Operation {
    Operation(c.operation, c.binding.version, c.key, c.request, c.confirmationId, c.decidedAt)
  }

  /** Same request: not the display name, the clock or the identity the command proposes. */
  predicate SameRequest(d: Decision, c: Command) {
    && d.invitationId == c.invitationId
    && d.binding == c.binding
    && d.reviewer == c.reviewer
    && d.payload == c.payload
    && d.request == c.request
  }

  /******* Consistency of the seven dictionaries *******/

  ghost predicate InvitationsIndexed(invitations: map<Id, Invitation>, idByDigest: map<Id, Id>) {
    && (forall id :: id in invitations ==>
          invitations[id].id == id && invitations[id].tokenDigest in idByDigest && idByDigest[invitations[id].tokenDigest] == id)
    && (forall d :: d in idByDigest ==> idByDigest[d] in invitations && invitations[idByDigest[d]].tokenDigest == d)
  }

  ghost predicate BindingsRemembered(invitations: map<Id, Invitation>, bindings: map<Version, Binding>) {
    && (forall id :: id in invitations ==>
          invitations[id].binding.version in bindings && bindings[invitations[id].binding.version] == invitations[id].binding)
    && (forall v :: v in bindings ==> exists id :: id in invitations && invitations[id].binding.version == v)
  }

  ghost predicate DecisionsIndexed(decisionOf: map<Binding, Decision>, decisions: map<Id, Decision>) {
    && (forall b :: b in decisionOf ==>
          decisionOf[b].binding == b && decisionOf[b].confirmationId in decisions &&
          decisions[decisionOf[b].confirmationId] == decisionOf[b])
    && (forall c :: c in decisions ==>
          decisions[c].confirmationId == c && decisions[c].binding in decisionOf && decisionOf[decisions[c].binding] == decisions[c])
  }

  /** The decision was taken on a stored, unexpired invitation for its contract and reviewer. */
  ghost predicate DecisionFounded(invitations: map<Id, Invitation>, d: Decision) {
    && PayloadAllowed(d.payload)
    && d.invitationId in invitations
    && invitations[d.invitationId].binding == d.binding
    && invitations[d.invitationId].organization == d.reviewer.organization
    && d.decidedAt < invitations[d.invitationId].expiresAt
  }

  ghost predicate OperationFounded(decisions: map<Id, Decision>, operationByKey: map<OperationKey, Id>, o: Operation) {
    && OperationKey(o.version, o.key) in operationByKey
    && operationByKey[OperationKey(o.version, o.key)] == o.digest
    && o.confirmationId in decisions
    && decisions[o.confirmationId].binding.version == o.version
    && decisions[o.confirmationId].request == o.request
    && decisions[o.confirmationId].decidedAt == o.createdAt
  }

  ghost predicate HasOperation(operations: map<Id, Operation>, c: Id) {
    exists o :: o in operations && operations[o].confirmationId == c
  }

  /** Operations, their keys and decisions correspond one to one. */
  ghost predicate OperationsIndexed(decisions: map<Id, Decision>, operations: map<Id, Operation>, operationByKey: map<OperationKey, Id>) {
    && (forall o :: o in operations ==> operations[o].digest == o && OperationFounded(decisions, operationByKey, operations[o]))
    && (forall k :: k in operationByKey ==>
          operationByKey[k] in operations && OperationKey(operations[operationByKey[k]].version, operations[operationByKey[k]].key) == k)
    && (forall o, p :: o in operations && p in operations && operations[o].confirmationId == operations[p].confirmationId ==> o == p)
    && (forall c :: c in decisions ==> HasOperation(operations, c))
  }

  ghost predicate Consistent(s: StoreState) {
    && InvitationsIndexed(s.invitations, s.idByDigest)
    && BindingsRemembered(s.invitations, s.bindings)
    && DecisionsIndexed(s.decisionOf, s.decisions)
    && OperationsIndexed(s.decisions, s.operations, s.operationByKey)
    && (forall c :: c in s.decisions ==> DecisionFounded(s.invitations, s.decisions[c]))
  }

  /******* Steps *******/

  predicate BindingConflicts(s: StoreState, b: Binding) {
    b.version in s.bindings && s.bindings[b.version] != b
  }

  function InvitationFor(s: StoreState, digest: Id): Option<Invitation>
    requires InvitationsIndexed(s.invitations, s.idByDigest)
  {
    if digest in s.idByDigest then Some(s.invitations[s.idByDigest[digest]]) else None
  }

  function IssueAnswer(s: StoreState, i: Invitation): Result<Invitation, StoreError> {
    if i.id in s.invitations then
      if s.invitations[i.id] == i then Ok(i) else Err(IdentityConflict)
    else if i.tokenDigest in s.idByDigest then Err(TokenDigestConflict)
    else if BindingConflicts(s, i.binding) then Err(BindingMismatch)
    else Ok(i)
  }

  function AfterIssue(s: StoreState, i: Invitation): StoreState {
    if IssueAnswer(s, i).Err? || i.id in s.invitations then s
    else
      s.(invitations := s.invitations[i.id := i],
         idByDigest := s.idByDigest[i.tokenDigest := i.id],
         bindings := s.bindings[i.binding.version := i.binding])
  }

  function ResolveAnswer(s: StoreState, digest: Id, now: int): Result<Option<Invitation>, StoreError>
    requires InvitationsIndexed(s.invitations, s.idByDigest)
  {
    match InvitationFor(s, digest)
    case None => Ok(None)
    case Some(i) =>
      if i.binding in s.decisionOf then Err(Consumed)
      else if now >= i.expiresAt then Err(Expired)
      else Ok(Some(i))
  }

  /** Whether the recorded operation is this command's. Every lookup is in bounds. */
  ghost predicate IsReplay(s: StoreState, c: Command)
    requires Consistent(s) && c.operation in s.operations
  {
    var o := s.operations[c.operation];
    var d := s.decisions[o.confirmationId];
    && o.version == c.binding.version && o.key == c.key && o.request == c.request
    && s.invitations[d.invitationId].tokenDigest == c.tokenDigest
    && SameRequest(d, c)
  }

  /** The first obstacle to a decision by a new operation. */
  ghost function Obstacle(s: StoreState, c: Command): Option<StoreError>
    requires Consistent(s)
  {
    var i := InvitationFor(s, c.tokenDigest);
    if KeyOf(c) in s.operationByKey then Some(IdempotencyConflict)
    else if i.None? || i.value.id != c.invitationId then Some(NotFound)
    else if c.decidedAt >= i.value.expiresAt then Some(Expired)
    else if BindingConflicts(s, c.binding) then Some(BindingMismatch)
    else if i.value.binding != c.binding then Some(BindingMismatch)
    else if i.value.organization != c.reviewer.organization then Some(BindingMismatch)
    else if c.binding in s.decisionOf then Some(AlreadyRecorded)
    else if c.confirmationId in s.decisions then Some(AlreadyRecorded)
    else if !PayloadAllowed(c.payload) then Some(InvalidPayload)
    else None
  }

  ghost function DecideAnswer(s: StoreState, c: Command): Result<Written, StoreError>
    requires Consistent(s)
  {
    if c.operation in s.operations then
      if IsReplay(s, c) then Ok(Written(s.decisions[s.operations[c.operation].confirmationId], true))
      else Err(IdempotencyConflict)
    else
      match Obstacle(s, c)
      case Some(error) => Err(error)
      case None => Ok(Written(DecisionFrom(c), false))
  }

  function WithDecision(s: StoreState, c: Command): StoreState {
    s.(decisionOf := s.decisionOf[c.binding := DecisionFrom(c)],
       decisions := s.decisions[c.confirmationId := DecisionFrom(c)],
       operations := s.operations[c.operation := OperationFrom(c)],
       operationByKey := s.operationByKey[KeyOf(c) := c.operation],
       bindings := s.bindings[c.binding.version := c.binding])
  }

  ghost function AfterDecide(s: StoreState, c: Command): StoreState
    requires Consistent(s)
  {
    if DecideAnswer(s, c) == Ok(Written(DecisionFrom(c), false)) then WithDecision(s, c) else s
  }
}
