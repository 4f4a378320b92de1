/** The reference store: seven dictionaries updated in place. */
module ConfirmationStore {
  import opened Wrappers
  import opened LedgerRecords
  import opened StoreRules
  import opened StoreHistory

  class InMemoryStore {
    var invitations: map<Id, Invitation>
    var idByDigest: map<Id, Id>
    var bindings: map<Version, Binding>
    var decisionOf: map<Binding, Decision>
    var decisions: map<Id, Decision>
    var operations: map<Id, Operation>
    var operationByKey: map<OperationKey, Id>

    ghost function State(): StoreState
      reads this
    {
      StoreState(invitations, idByDigest, bindings, decisionOf, decisions, operations, operationByKey)
    }

    ghost predicate Valid()
      reads this
    {
      Consistent(State())
    }

    constructor ()
      ensures Valid() && State() == EMPTY_STORE
    {
      invitations, idByDigest, bindings := map[], map[], map[];
      decisionOf, decisions, operations, operationByKey := map[], map[], map[], map[];
    }

    method IssueInvitation(i: Invitation) returns (answer: Result<Invitation, StoreError>)
      requires Valid()
      modifies this
      ensures Valid()
      ensures answer == old(IssueAnswer(State(), i)) && State() == old(AfterIssue(State(), i))
    {
      hide Consistent;
      IssueKeepsConsistent(State(), i);
      if i.id in invitations {
        return if invitations[i.id] == i then Ok(i) else Err(IdentityConflict);
      }
      if i.tokenDigest in idByDigest {
        return Err(TokenDigestConflict);
      }
      var consistent := ConsistentBinding(i.binding);
      if !consistent {
        return Err(BindingMismatch);
      }
      invitations := invitations[i.id := i];
      idByDigest := idByDigest[i.tokenDigest := i.id];
      bindings := bindings[i.binding.version := i.binding];
      answer := Ok(i);
    }

    method ConsistentBinding(b: Binding) returns (consistent: bool)
      ensures consistent <==> !BindingConflicts(State(), b)
    {
      consistent := b.version !in bindings || bindings[b.version] == b;
    }

    /** Compares the digest with every stored one and keeps the last match; which is what the
        digest index answers. */
    method InvitationForDigest(digest: Id) returns (matched: Option<Invitation>)
      requires Valid()
      ensures matched == InvitationFor(State(), digest)
    {
      matched := None;
      var left := invitations.Keys;
      assert InvitationsIndexed(invitations, idByDigest);
      hide Consistent;
      while left != {}
        invariant left <= invitations.Keys
        invariant matched.Some? ==> matched == InvitationFor(State(), digest)
        invariant matched.None? ==> forall id :: id in invitations ==> id in left || invitations[id].tokenDigest != digest
        decreases |left|
      {
        SomeMember(left);
        var id :| id in left;
        if invitations[id].tokenDigest == digest {
          matched := Some(invitations[id]);
        }
        left := left - {id};
      }
      ScanIsLookup(State(), digest, matched);
    }

    method ResolveInvitation(digest: Id, now: int) returns (answer: Result<Option<Invitation>, StoreError>)
      requires Valid()
      ensures answer == ResolveAnswer(State(), digest, now)
    {
      var i := InvitationForDigest(digest);
      hide Consistent;
      if i.None? {
        return Ok(None);
      }
      if i.value.binding in decisionOf {
        return Err(Consumed);
      }
      if now >= i.value.expiresAt {
        return Err(Expired);
      }
      answer := Ok(i);
    }

    method ReplayOrConflict(c: Command, o: Operation) returns (answer: Result<Written, StoreError>)
      requires Valid() && c.operation in operations && o == operations[c.operation]
      ensures answer == DecideAnswer(State(), c)
    {
      ReplayLookups(State(), c);
      hide Consistent;
      var d := decisions[o.confirmationId];
      var i := invitations[d.invitationId];
      if o.version != c.binding.version || o.key != c.key || o.request != c.request
         || i.tokenDigest != c.tokenDigest || !SameRequest(d, c) {
        return Err(IdempotencyConflict);
      }
      answer := Ok(Written(d, true));
    }

    /** The checks that a new operation must pass, in the order they are made. */
    method CheckFirstWrite(c: Command) returns (obstacle: Option<StoreError>)
      requires Valid()
      ensures obstacle == Obstacle(State(), c)
    {
      hide Consistent;
      if KeyOf(c) in operationByKey {
        return Some(IdempotencyConflict);
      }
      var i := InvitationForDigest(c.tokenDigest);
      if i.None? || i.value.id != c.invitationId {
        return Some(NotFound);
      }
      if c.decidedAt >= i.value.expiresAt {
        return Some(Expired);
      }
      var consistent := ConsistentBinding(c.binding);
      if !consistent || i.value.binding != c.binding {
        return Some(BindingMismatch);
      }
      if i.value.organization != c.reviewer.organization {
        return Some(BindingMismatch);
      }
      if c.binding in decisionOf || c.confirmationId in decisions {
        return Some(AlreadyRecorded);
      }
      obstacle := if PayloadAllowed(c.payload) then None else Some(InvalidPayload);
    }

    method RecordDecision(c: Command) returns (answer: Result<Written, StoreError>)
      requires Valid()
      modifies this
      ensures Valid()
      ensures answer == old(DecideAnswer(State(), c)) && State() == old(AfterDecide(State(), c))
    {
      hide Consistent, Obstacle, IsReplay, WithDecision;
      DecideKeepsConsistent(State(), c);
      if c.operation in operations {
        answer := ReplayOrConflict(c, operations[c.operation]);
        return;
      }
      var obstacle := CheckFirstWrite(c);
      if obstacle.Some? {
        return Err(obstacle.value);
      }
      Store(c);
      answer := Ok(Written(DecisionFrom(c), false));
    }

    method Store(c: Command)
      modifies this
      ensures State() == WithDecision(old(State()), c)
    {
      var d := DecisionFrom(c);
      decisionOf := decisionOf[c.binding := d];
      decisions := decisions[d.confirmationId := d];
      operations := operations[c.operation := OperationFrom(c)];
      operationByKey := operationByKey[KeyOf(c) := c.operation];
      bindings := bindings[c.binding.version := c.binding];
    }

    method GetDecision(b: Binding) returns (d: Option<Decision>)
      requires Valid()
      ensures d.Some? <==> exists c :: c in decisions && decisions[c].binding == b
      ensures d.Some? ==> d.value.binding == b && d.value.confirmationId in decisions && decisions[d.value.confirmationId] == d.value
    {
      assert DecisionsIndexed(decisionOf, decisions);
      hide Consistent;
      d := if b in decisionOf then Some(decisionOf[b]) else None;
    }
  }

  lemma ScanIsLookup(s: StoreState, digest: Id, matched: Option<Invitation>)
    requires InvitationsIndexed(s.invitations, s.idByDigest)
    requires matched.Some? ==> matched == InvitationFor(s, digest)
    requires matched.None? ==> forall id :: id in s.invitations ==> s.invitations[id].tokenDigest != digest
    ensures matched == InvitationFor(s, digest)
  {
    if digest in s.idByDigest {
      var id := s.idByDigest[digest];
      assert s.invitations[id].tokenDigest == digest;
    }
  }
}
