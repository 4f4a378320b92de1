/** What every run of the reference store keeps. */
module StoreHistory {
  import opened Wrappers
  import opened LedgerRecords
  import opened StoreRules

  /******* One step *******/

  lemma IssueKeepsBindings(s: StoreState, i: Invitation)
    requires BindingsRemembered(s.invitations, s.bindings)
    ensures BindingsRemembered(AfterIssue(s, i).invitations, AfterIssue(s, i).bindings)
  {
    var t := AfterIssue(s, i);
    forall v | v in t.bindings
      ensures exists id :: id in t.invitations && t.invitations[id].binding.version == v
    {
      if v in s.bindings {
        var id :| id in s.invitations && s.invitations[id].binding.version == v;
        assert t.invitations[id] == s.invitations[id];
      } else {
        assert t.invitations[i.id] == i;
      }
    }
  }

  lemma IssueKeepsConsistent(s: StoreState, i: Invitation)
    requires Consistent(s)
    ensures Consistent(AfterIssue(s, i))
  {
    hide BindingsRemembered, DecisionsIndexed, OperationsIndexed, DecisionFounded;
    var t := AfterIssue(s, i);
    IssueKeepsBindings(s, i);
    forall c | c in t.decisions
      ensures DecisionFounded(t.invitations, t.decisions[c])
    {
      FoundedInMore(s.invitations, t.invitations, s.decisions[c]);
    }
  }

  lemma FoundedInMore(some: map<Id, Invitation>, more: map<Id, Invitation>, d: Decision)
    requires DecisionFounded(some, d) && forall id :: id in some ==> id in more && more[id] == some[id]
    ensures DecisionFounded(more, d)
  {
  }

  ghost predicate FirstWrite(s: StoreState, c: Command)
    requires Consistent(s)
  {
    DecideAnswer(s, c) == Ok(Written(DecisionFrom(c), false))
  }

  /** A first write finds its invitation, no decision for the contract version, and its
      digest and key unused. */
  lemma FirstWriteFacts(s: StoreState, c: Command)
    requires Consistent(s) && FirstWrite(s, c)
    ensures c.operation !in s.operations && KeyOf(c) !in s.operationByKey
    ensures c.binding !in s.decisionOf && c.confirmationId !in s.decisions
    ensures c.invitationId in s.invitations && DecisionFounded(s.invitations, DecisionFrom(c))
    ensures s.invitations[c.invitationId].tokenDigest == c.tokenDigest
    ensures c.binding.version in s.bindings && s.bindings[c.binding.version] == c.binding
  {
    assert InvitationsIndexed(s.invitations, s.idByDigest) && BindingsRemembered(s.invitations, s.bindings);
    hide Consistent, IsReplay;
    assert Obstacle(s, c).None?;
    var i := InvitationFor(s, c.tokenDigest).value;
    var id := s.idByDigest[c.tokenDigest];
    assert s.invitations[id].id == id;
    assert i.id == c.invitationId && i == s.invitations[c.invitationId];
  }

  /** The state after a first write, apart from what made it possible. */
  function Recorded(s: StoreState, c: Command): StoreState {
    WithDecision(s, c).(bindings := s.bindings)
  }

  lemma FirstWriteRecords(s: StoreState, c: Command)
    requires Consistent(s)
    ensures AfterDecide(s, c) == if FirstWrite(s, c) then Recorded(s, c) else s
  {
    if FirstWrite(s, c) {
      FirstWriteFacts(s, c);
      hide Consistent;
      assert s.bindings[c.binding.version := c.binding] == s.bindings;
    }
    hide Consistent, IsReplay, Obstacle;
  }

  lemma RecordingKeepsDecisions(s: StoreState, c: Command)
    requires DecisionsIndexed(s.decisionOf, s.decisions) && c.binding !in s.decisionOf && c.confirmationId !in s.decisions
    ensures DecisionsIndexed(Recorded(s, c).decisionOf, Recorded(s, c).decisions)
  {
  }

  lemma RecordingKeepsOperations(s: StoreState, c: Command)
    requires OperationsIndexed(s.decisions, s.operations, s.operationByKey)
    requires c.operation !in s.operations && KeyOf(c) !in s.operationByKey && c.confirmationId !in s.decisions
    ensures OperationsIndexed(Recorded(s, c).decisions, Recorded(s, c).operations, Recorded(s, c).operationByKey)
  {
    var t := Recorded(s, c);
    hide HasOperation, OperationFounded;
    ConfirmationsStayApart(s, c);
    forall x | x in t.decisions
      ensures HasOperation(t.operations, x)
    {
      RecordedHasOperation(s.operations, c, x);
    }
    forall o | o in t.operations
      ensures OperationFounded(t.decisions, t.operationByKey, t.operations[o])
    {
      if o != c.operation {
        StillFounded(s, c, s.operations[o]);
      } else {
        NewlyFounded(s, c);
      }
    }
  }

  lemma ConfirmationsStayApart(s: StoreState, c: Command)
    requires OperationsIndexed(s.decisions, s.operations, s.operationByKey)
    requires c.operation !in s.operations && c.confirmationId !in s.decisions
    ensures var after := s.operations[c.operation := OperationFrom(c)];
            forall o, p :: o in after && p in after && after[o].confirmationId == after[p].confirmationId ==> o == p
  {
    hide HasOperation;
    assert forall o :: o in s.operations ==> s.operations[o].confirmationId in s.decisions;
  }

  lemma RecordedHasOperation(operations: map<Id, Operation>, c: Command, x: Id)
    requires c.operation !in operations && (x == c.confirmationId || HasOperation(operations, x))
    ensures HasOperation(operations[c.operation := OperationFrom(c)], x)
  {
    var after := operations[c.operation := OperationFrom(c)];
    if x == c.confirmationId {
      assert after[c.operation].confirmationId == x;
    } else {
      var o :| o in operations && operations[o].confirmationId == x;
      assert after[o] == operations[o];
    }
  }

  lemma StillFounded(s: StoreState, c: Command, o: Operation)
    requires OperationFounded(s.decisions, s.operationByKey, o)
    requires c.operation !in s.operations && KeyOf(c) !in s.operationByKey && c.confirmationId !in s.decisions
    ensures OperationFounded(Recorded(s, c).decisions, Recorded(s, c).operationByKey, o)
  {
  }

  lemma NewlyFounded(s: StoreState, c: Command)
    ensures OperationFounded(Recorded(s, c).decisions, Recorded(s, c).operationByKey, OperationFrom(c))
  {
  }

  lemma DecideKeepsConsistent(s: StoreState, c: Command)
    requires Consistent(s)
    ensures Consistent(AfterDecide(s, c))
  {
    hide InvitationsIndexed, BindingsRemembered, DecisionsIndexed, OperationsIndexed, DecisionFounded, FirstWrite, AfterDecide;
    FirstWriteRecords(s, c);
    if FirstWrite(s, c) {
      FirstWriteFacts(s, c);
      RecordingKeepsDecisions(s, c);
      RecordingKeepsOperations(s, c);
    }
  }

  /** Replay lookups cannot fail. */
  lemma ReplayLookups(s: StoreState, c: Command)
    requires Consistent(s) && c.operation in s.operations
    ensures s.operations[c.operation].confirmationId in s.decisions
    ensures s.decisions[s.operations[c.operation].confirmationId].invitationId in s.invitations
  {
    assert OperationFounded(s.decisions, s.operationByKey, s.operations[c.operation]);
    assert forall x :: x in s.decisions ==> DecisionFounded(s.invitations, s.decisions[x]);
  }

  /******* Runs *******/

  datatype Call = Issue(invitation: Invitation) | Resolve(digest: Id, now: int) | Decide(command: Command)

  ghost function After(s: StoreState, call: Call): (t: StoreState)
    requires Consistent(s)
    ensures Consistent(t)
  {
    match call
    case Issue(i) =>
      IssueKeepsConsistent(s, i);
      AfterIssue(s, i)
    case Resolve(_, _) => s
    case Decide(c) =>
      DecideKeepsConsistent(s, c);
      AfterDecide(s, c)
  }

  ghost function Run(s: StoreState, calls: seq<Call>): (t: StoreState)
    requires Consistent(s)
    ensures Consistent(t)
    decreases |calls|
  {
    if calls == [] then s else Run(After(s, calls[0]), calls[1..])
  }

  /** Nothing stored is ever removed or replaced. */
  ghost predicate Grows(s: StoreState, t: StoreState) {
    && Extends(s.invitations, t.invitations)
    && Extends(s.idByDigest, t.idByDigest)
    && Extends(s.bindings, t.bindings)
    && Extends(s.decisionOf, t.decisionOf)
    && Extends(s.decisions, t.decisions)
    && Extends(s.operations, t.operations)
    && Extends(s.operationByKey, t.operationByKey)
  }

  lemma RecordingGrows(s: StoreState, c: Command)
    requires c.operation !in s.operations && KeyOf(c) !in s.operationByKey
    requires c.binding !in s.decisionOf && c.confirmationId !in s.decisions
    ensures Grows(s, Recorded(s, c))
  {
  }

  lemma IssueGrows(s: StoreState, i: Invitation)
    ensures Grows(s, AfterIssue(s, i))
  {
  }

  lemma StepGrows(s: StoreState, call: Call)
    requires Consistent(s)
    ensures Grows(s, After(s, call))
  {
    hide Consistent, AfterDecide, AfterIssue, FirstWrite, DecisionFounded, Recorded;
    match call
    case Issue(i) => IssueGrows(s, i);
    case Resolve(_, _) =>
    case Decide(c) =>
      FirstWriteRecords(s, c);
      if FirstWrite(s, c) {
        FirstWriteFacts(s, c);
        RecordingGrows(s, c);
      }
  }

  lemma {:induction false} RunGrows(s: StoreState, calls: seq<Call>)
    requires Consistent(s)
    ensures Grows(s, Run(s, calls))
    decreases |calls|
  {
    hide Consistent, After;
    if calls != [] {
      StepGrows(s, calls[0]);
      RunGrows(After(s, calls[0]), calls[1..]);
    }
  }

  /******* What is recorded, and what is refused *******/

  /** The payload rules, on their fields. */
  predicate PayloadSound(p: Payload) {
    match p.choice
    case CONFIRM => p.acknowledged && p.rationale.length <= 2000 && !p.rationale.holdsNul
    case REQUEST_CHANGES => p.rationale.length <= 2000 && !p.rationale.holdsNul && !p.rationale.blank
  }

  /** The command presents the token of the stored invitation that it names. */
  predicate Presents(s: StoreState, c: Command) {
    c.invitationId in s.invitations && s.invitations[c.invitationId].tokenDigest == c.tokenDigest
  }

  predicate Invited(s: StoreState, c: Command)
    requires c.invitationId in s.invitations
  {
    && s.invitations[c.invitationId].binding == c.binding
    && s.invitations[c.invitationId].organization == c.reviewer.organization
  }

  ghost predicate Undecided(s: StoreState, c: Command) {
    c.confirmationId !in s.decisions && forall d :: d in s.decisions ==> s.decisions[d].binding != c.binding
  }

  /** A new operation is recorded exactly when its key is unused and it presents an unexpired
      invitation for its contract and organization, undecided, with a sound payload; and each
      refusal names the first of these, in that order, that fails. */
  lemma NewOperationExactly(s: StoreState, c: Command)
    requires Consistent(s) && c.operation !in s.operations
    ensures match DecideAnswer(s, c)
            case Ok(w) =>
              && KeyOf(c) !in s.operationByKey && Presents(s, c) && c.decidedAt < s.invitations[c.invitationId].expiresAt
              && Invited(s, c) && Undecided(s, c) && PayloadSound(c.payload) && w == Written(DecisionFrom(c), false)
            case Err(IdempotencyConflict) => KeyOf(c) in s.operationByKey
            case Err(NotFound) => KeyOf(c) !in s.operationByKey && !Presents(s, c)
            case Err(Expired) =>
              KeyOf(c) !in s.operationByKey && Presents(s, c) && c.decidedAt >= s.invitations[c.invitationId].expiresAt
            case Err(error) =>
              && KeyOf(c) !in s.operationByKey && Presents(s, c) && c.decidedAt < s.invitations[c.invitationId].expiresAt
              && error in {BindingMismatch, AlreadyRecorded, InvalidPayload}
              && (error == BindingMismatch <==> !Invited(s, c))
              && (error == AlreadyRecorded <==> Invited(s, c) && !Undecided(s, c))
              && (error == InvalidPayload <==> Invited(s, c) && Undecided(s, c) && !PayloadSound(c.payload))
  {
    Presented(s, c);
    DecidedBindings(s, c);
    assert BindingsRemembered(s.invitations, s.bindings);
    hide Consistent, IsReplay, InvitationFor, Undecided, KeyOf;
  }

  lemma Presented(s: StoreState, c: Command)
    requires Consistent(s)
    ensures var i := InvitationFor(s, c.tokenDigest);
            && (Presents(s, c) <==> i.Some? && i.value.id == c.invitationId)
            && (Presents(s, c) ==> i.value == s.invitations[c.invitationId])
  {
    assert InvitationsIndexed(s.invitations, s.idByDigest);
    hide Consistent;
    if c.tokenDigest in s.idByDigest {
      var id := s.idByDigest[c.tokenDigest];
      assert s.invitations[id].id == id;
    }
  }

  lemma DecidedBindings(s: StoreState, c: Command)
    requires Consistent(s)
    ensures Undecided(s, c) <==> c.binding !in s.decisionOf && c.confirmationId !in s.decisions
  {
    assert DecisionsIndexed(s.decisionOf, s.decisions);
    hide Consistent;
    if c.binding in s.decisionOf {
      var id := s.decisionOf[c.binding].confirmationId;
      assert s.decisions[id].binding == c.binding;
    }
  }

  /** After any calls every recorded decision has a sound payload and was taken in time, on a
      stored invitation for its contract and its reviewer's organization. */
  lemma RecordedIsSound(s: StoreState, calls: seq<Call>, id: Id)
    requires Consistent(s) && id in Run(s, calls).decisions
    ensures var t := Run(s, calls);
            var d := t.decisions[id];
            && PayloadSound(d.payload)
            && d.invitationId in t.invitations && d.decidedAt < t.invitations[d.invitationId].expiresAt
            && t.invitations[d.invitationId].binding == d.binding
            && t.invitations[d.invitationId].organization == d.reviewer.organization
  {
    var t := Run(s, calls);
    assert DecisionFounded(t.invitations, t.decisions[id]);
    hide Consistent, Run;
  }

  /******* One decision, forever *******/

  /** A contract version has at most one decision. */
  lemma OneDecisionPerVersion(s: StoreState, c: Id, d: Id)
    requires Consistent(s) && c in s.decisions && d in s.decisions
    requires s.decisions[c].binding.version == s.decisions[d].binding.version
    ensures c == d
  {
    assert DecisionFounded(s.invitations, s.decisions[c]) && DecisionFounded(s.invitations, s.decisions[d]);
    hide OperationsIndexed;
  }

  ghost predicate Decided(s: StoreState, v: Version, d: Decision) {
    d.confirmationId in s.decisions && s.decisions[d.confirmationId] == d && d.binding.version == v
  }

  /** The decision of a contract version never changes. */
  lemma DecisionIsPermanent(s: StoreState, calls: seq<Call>, v: Version, d: Decision, e: Decision)
    requires Consistent(s) && Decided(s, v, d) && Decided(Run(s, calls), v, e)
    ensures e == d
  {
    RunGrows(s, calls);
    OneDecisionPerVersion(Run(s, calls), d.confirmationId, e.confirmationId);
  }

  /** An accepted command, resubmitted at any time and with any display name or proposed
      confirmation id. */
  predicate Resubmits(c: Command, again: Command) {
    && again.operation == c.operation && again.key == c.key && again.request == c.request
    && again.tokenDigest == c.tokenDigest && again.invitationId == c.invitationId && again.binding == c.binding
    && again.reviewer == c.reviewer && again.payload == c.payload
  }

  lemma AcceptedIsRecorded(s: StoreState, c: Command, w: Written)
    requires Consistent(s) && DecideAnswer(s, c) == Ok(w)
    ensures c.operation in AfterDecide(s, c).operations && Consistent(AfterDecide(s, c))
    ensures IsReplay(AfterDecide(s, c), c)
    ensures AfterDecide(s, c).decisions[AfterDecide(s, c).operations[c.operation].confirmationId] == w.decision
  {
    DecideKeepsConsistent(s, c);
    FirstWriteRecords(s, c);
    if FirstWrite(s, c) {
      FirstWriteFacts(s, c);
    }
    hide Consistent, Obstacle, AfterDecide;
  }

  /** After any calls, even past expiry, a resubmission returns the first decision as a replay
      and changes nothing. */
  lemma ResubmissionReplays(s: StoreState, c: Command, w: Written, calls: seq<Call>, again: Command)
    requires Consistent(s) && DecideAnswer(s, c) == Ok(w) && Resubmits(c, again)
    ensures Consistent(AfterDecide(s, c))
    ensures DecideAnswer(Run(AfterDecide(s, c), calls), again) == Ok(Written(w.decision, true))
    ensures AfterDecide(Run(AfterDecide(s, c), calls), again) == Run(AfterDecide(s, c), calls)
  {
    AcceptedIsRecorded(s, c, w);
    var t := AfterDecide(s, c);
    ReplayLookups(t, c);
    RunGrows(t, calls);
    hide Consistent, Obstacle, AfterDecide, Run;
    assert IsReplay(Run(t, calls), again);
    assert AfterDecide(Run(t, calls), again) == Run(t, calls) by {
      ReplayChangesNothing(Run(t, calls), again);
    }
  }

  lemma ReplayChangesNothing(s: StoreState, c: Command)
    requires Consistent(s) && c.operation in s.operations
    ensures AfterDecide(s, c) == s
  {
    hide Consistent, IsReplay;
  }

  /** Two accepted commands with one operation digest were answered with one decision, however
      far apart and whatever else they say. */
  lemma OperationNeverTwoDecisions(s: StoreState, c: Command, w: Written, calls: seq<Call>, other: Command, x: Written)
    requires Consistent(s) && DecideAnswer(s, c) == Ok(w) && other.operation == c.operation
    requires Consistent(AfterDecide(s, c)) && DecideAnswer(Run(AfterDecide(s, c), calls), other) == Ok(x)
    ensures x == Written(w.decision, true) && Resubmits(c, other)
  {
    AcceptedIsRecorded(s, c, w);
    var t := AfterDecide(s, c);
    ReplayLookups(t, c);
    RunGrows(t, calls);
    hide Consistent, Obstacle, AfterDecide, Run;
    assert IsReplay(Run(t, calls), other);
  }

  /** Once decided, an invitation never resolves again, and no new operation is accepted for
      its contract version. */
  lemma DecidedIsClosed(s: StoreState, calls: seq<Call>, d: Decision, now: int, c: Command)
    requires Consistent(s) && d.confirmationId in s.decisions && s.decisions[d.confirmationId] == d
    ensures ResolveAnswer(Run(s, calls), s.invitations[d.invitationId].tokenDigest, now) == Err(Consumed)
    ensures c.binding.version == d.binding.version && c.operation !in Run(s, calls).operations ==>
              DecideAnswer(Run(s, calls), c).Err?
  {
    assert DecisionFounded(s.invitations, d) && d.binding in s.decisionOf;
    RunGrows(s, calls);
    var t := Run(s, calls);
    assert InvitationFor(t, s.invitations[d.invitationId].tokenDigest) == Some(s.invitations[d.invitationId]) by {
      hide DecisionsIndexed, OperationsIndexed, Run;
    }
    if c.binding.version == d.binding.version && c.operation !in t.operations && DecideAnswer(t, c).Ok? {
      assert t.bindings[d.binding.version] == d.binding by {
        hide DecisionsIndexed, OperationsIndexed, Run;
      }
      FirstWriteFacts(t, c);
    }
    hide Consistent, Obstacle, Run;
  }

  /******* Order of issue and decision *******/

  /** What the durable reader asks of a stored decision and its invitation. */
  predicate ReaderAccepts(i: Invitation, d: Decision) {
    && d.invitationId == i.id && d.binding == i.binding && d.reviewer.organization == i.organization
    && i.issuedAt <= d.decidedAt < i.expiresAt
  }

  /** The reference store lets a decision precede the issue of its invitation. Whatever it has
      recorded, the reader accepts exactly what was decided no earlier than the issue. */
  lemma ReaderAcceptsUnlessEarly(s: StoreState, c: Id)
    requires Consistent(s) && c in s.decisions
    ensures s.decisions[c].invitationId in s.invitations
    ensures ReaderAccepts(s.invitations[s.decisions[c].invitationId], s.decisions[c]) <==>
            s.invitations[s.decisions[c].invitationId].issuedAt <= s.decisions[c].decidedAt
  {
    assert DecisionFounded(s.invitations, s.decisions[c]);
    hide DecisionsIndexed, OperationsIndexed, BindingsRemembered;
  }

  function EarlyInvitation(): Invitation {
    Invitation(1, Binding(Version(1, 1), 1), 7, SHA256_V1, 3, 4, 50, 90)
  }

  function EarlyCommand(): Command {
    Command(11, 12, 13, 7, 14, 1, Binding(Version(1, 1), 1), Reviewer(21, 22, 3), 23,
            Payload(CONFIRM, true, Rationale(0, 0, true, false)), 20)
  }

  function EarlyStore(): StoreState {
    StoreState(map[1 := EarlyInvitation()], map[7 := 1], map[Version(1, 1) := Binding(Version(1, 1), 1)],
               map[], map[], map[], map[])
  }

  lemma EmptyIsConsistent()
    ensures Consistent(EMPTY_STORE)
  {
  }

  lemma EarlyIssue()
    requires Consistent(EMPTY_STORE)
    ensures After(EMPTY_STORE, Issue(EarlyInvitation())) == EarlyStore()
  {
    hide Consistent;
  }

  lemma EarlyObstacle()
    requires Consistent(EarlyStore())
    ensures Obstacle(EarlyStore(), EarlyCommand()).None?
  {
    hide Consistent;
  }

  lemma EarlyDecide()
    requires Consistent(EarlyStore())
    ensures 14 in After(EarlyStore(), Decide(EarlyCommand())).decisions
  {
    EarlyObstacle();
    hide Consistent, Obstacle;
  }

  lemma EarlyIsUnreadable()
    ensures !ReaderAccepts(EarlyInvitation(), DecisionFrom(EarlyCommand()))
  {
  }

  lemma RunFirst(s: StoreState, a: Call, rest: seq<Call>)
    requires Consistent(s)
    ensures Run(s, [a] + rest) == Run(After(s, a), rest)
  {
    hide Consistent, After;
    assert ([a] + rest)[1..] == rest;
  }

  lemma RunTwo(s: StoreState, a: Call, b: Call)
    requires Consistent(s)
    ensures Run(s, [a, b]) == After(After(s, a), b)
  {
    hide Consistent, After;
    assert [a, b] == [a] + [b] && [b] == [b] + [];
    RunFirst(s, a, [b]);
    RunFirst(After(s, a), b, []);
  }

  /** A decision taken before its invitation was issued, recorded and later unreadable. */
  lemma EarlyDecisionIsRecorded()
    ensures Consistent(EMPTY_STORE)
    ensures 14 in Run(EMPTY_STORE, [Issue(EarlyInvitation()), Decide(EarlyCommand())]).decisions
    ensures !ReaderAccepts(EarlyInvitation(), DecisionFrom(EarlyCommand()))
  {
    hide Consistent, After, Run, EarlyStore, EarlyInvitation, EarlyCommand, ReaderAccepts, DecisionFrom;
    EmptyIsConsistent();
    EarlyIssue();
    RunTwo(EMPTY_STORE, Issue(EarlyInvitation()), Decide(EarlyCommand()));
    EarlyDecide();
    EarlyIsUnreadable();
  }
}
