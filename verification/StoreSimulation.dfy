/** The durable writer answers issue requests as the reference store does. */
module StoreSimulation {
  import opened Wrappers
  import opened LedgerRecords
  import opened LedgerRules
  import I = Issuance
  import W = LedgerWriter
  import S = StoreRules
  import H = StoreHistory
  import V = LedgerValidator

  /** The same invitations, one issuance event for each, no revocation and no other event. */
  ghost predicate Related(l: Ledger, s: S.StoreState) {
    && Coherent(l) && RowsValid(l) && S.Consistent(s)
    && l.revocations == {}
    && (forall i :: i in l.invitations <==> i.id in s.invitations && s.invitations[i.id] == i)
    && (forall e :: e in l.events ==> e.eventType == INVITATION_ISSUED)
  }

  /** Which of the store's errors an answer of the ledger corresponds to. */
  ghost predicate SameClass(response: W.Response, answer: Result<Invitation, S.StoreError>) {
    match response
    case Stored(i) => answer == Ok(i)
    case Failed(Identity) => answer == Err(S.IdentityConflict)
    case Failed(Digest) => answer == Err(S.TokenDigestConflict)
    case Failed(Contract) => answer == Err(S.BindingMismatch)
    case Failed(_) => false
  }

  /** Every event names a stored invitation, under its binding. */
  lemma EventsNameStored(l: Ledger, e: Event) returns (i: Invitation)
    requires Coherent(l) && e in l.events && e.eventType == INVITATION_ISSUED
    ensures i in l.invitations && e.invitationId == Some(i.id) && e.binding == i.binding
  {
    hide CreationRecorded, RevocationsAudited, ReissuesMatched, ReferencesAgree, OneFingerprint, UniqueInvitations, UniqueEvents;
    assert CreationsAudited(l);
    hide Coherent;
    assert CreationEventFits(l, e);
    i :| i in l.invitations && RecordsCreation(e, i);
  }

  lemma SameIdentities(l: Ledger, s: S.StoreState, i: Invitation)
    requires Related(l, s)
    ensures Stores(l.invitations, i.id) <==> i.id in s.invitations
    ensures I.OwnsDigest(l.invitations, i.tokenDigest) <==> i.tokenDigest in s.idByDigest
    ensures i.id !in s.invitations ==> !I.AuditedOtherwise(l.events, i)
  {
    assert S.InvitationsIndexed(s.invitations, s.idByDigest);
    if i.id in s.invitations {
      assert s.invitations[i.id].id == i.id;
    }
    if i.tokenDigest in s.idByDigest {
      var id := s.idByDigest[i.tokenDigest];
      assert s.invitations[id] in l.invitations;
    }
    if I.AuditedOtherwise(l.events, i) {
      var e :| e in l.events && e.invitationId == Some(i.id) && e.binding != i.binding;
      var j := EventsNameStored(l, e);
    }
    hide Coherent, RowsValid, S.Consistent;
  }

  lemma SameBindings(l: Ledger, s: S.StoreState, b: Binding)
    requires Related(l, s)
    ensures I.BoundOtherwise(l, b) <==> S.BindingConflicts(s, b)
  {
    hide Coherent, RowsValid;
    assert S.BindingsRemembered(s.invitations, s.bindings);
    hide S.Consistent;
    W.BoundByRows(l, b);
    forall e | e in l.events
      ensures exists i :: i in l.invitations && i.binding == e.binding
    {
      var i := EventsNameStored(l, e);
    }
    if S.BindingConflicts(s, b) {
      var id :| id in s.invitations && s.invitations[id].binding.version == b.version;
      assert s.invitations[id].id == id by {
        assert s.invitations[id] in s.invitations.Values;
      }
      assert s.invitations[id] in l.invitations;
    }
  }

  function ReferenceAnswer(a: I.Answer, i: Invitation): Result<Invitation, S.StoreError> {
    match a
    case ExactReplay | Admitted => Ok(i)
    case IdentityConflict => Err(S.IdentityConflict)
    case TokenDigestConflict => Err(S.TokenDigestConflict)
    case BindingMismatch => Err(S.BindingMismatch)
  }

  lemma AnswersAgree(l: Ledger, s: S.StoreState, i: Invitation)
    requires Related(l, s)
    ensures S.IssueAnswer(s, i) == ReferenceAnswer(I.AnswerTo(l, i), i)
    ensures I.AnswerTo(l, i) != I.Admitted ==> S.AfterIssue(s, i) == s
    ensures I.AnswerTo(l, i) == I.Admitted ==> i.id !in s.invitations
  {
    hide Coherent, RowsValid, S.Consistent, I.BoundOtherwise, I.OwnsDigest, I.AuditedOtherwise, Stores, S.BindingConflicts;
    SameIdentities(l, s, i);
    SameBindings(l, s, i.binding);
  }

  /** One request: the same success, exact replay or error, and related states again; only an
      exhausted audit sequence tells the two apart. */
  lemma IssueSimulates(l: Ledger, s: S.StoreState, i: Invitation, l': Ledger, response: W.Response)
    requires Related(l, s) && InvitationRules(i) && W.Writes(l, i, l', response)
    requires !(I.AnswerTo(l, i) == I.Admitted && W.SequencesExhausted(l.events))
    ensures SameClass(response, S.IssueAnswer(s, i))
    ensures Related(l', S.AfterIssue(s, i))
  {
    hide Related, S.IssueAnswer, S.AfterIssue, I.AnswerTo, W.SequencesExhausted, I.IsNextEvent, InvitationRules, I.Extended;
    AnswersAgree(l, s, i);
    if I.AnswerTo(l, i) == I.Admitted {
      var e :| I.IsNextEvent(l, i, e) && l' == I.Extended(l, i, e);
      AdmissionKeepsRelated(l, s, i, e);
    }
  }

  lemma AdmissionKeepsRelated(l: Ledger, s: S.StoreState, i: Invitation, e: Event)
    requires Related(l, s) && InvitationRules(i) && I.AnswerTo(l, i) == I.Admitted && I.IsNextEvent(l, i, e)
    requires i.id !in s.invitations && S.IssueAnswer(s, i) == Ok(i)
    ensures Related(I.Extended(l, i, e), S.AfterIssue(s, i))
  {
    hide Coherent, RowsValid, S.Consistent;
    W.WriteFacts(l, i, e);
    H.IssueKeepsConsistent(s, i);
    assert e.eventType == INVITATION_ISSUED;
    hide I.IsNextEvent, I.AnswerTo;
  }

  /** A run of the writer over a sequence of requests. */
  ghost predicate WriterRun(ledgers: seq<Ledger>, requests: seq<Invitation>, responses: seq<W.Response>) {
    && |ledgers| == |requests| + 1 && |responses| == |requests|
    && forall k {:trigger requests[k]} :: 0 <= k < |requests| ==> W.Writes(ledgers[k], requests[k], ledgers[k + 1], responses[k])
  }

  function IssueCalls(requests: seq<Invitation>): seq<H.Call> {
    seq(|requests|, k requires 0 <= k < |requests| => H.Issue(requests[k]))
  }

  lemma {:induction false} RunAppend(s: S.StoreState, calls: seq<H.Call>, last: H.Call)
    requires S.Consistent(s)
    ensures H.Run(s, calls + [last]) == H.After(H.Run(s, calls), last)
    decreases |calls|
  {
    hide S.Consistent, H.After;
    if calls == [] {
      H.RunFirst(s, last, []);
      assert [last] + [] == [last];
    } else {
      assert calls == [calls[0]] + calls[1..];
      H.RunFirst(s, calls[0], calls[1..]);
      RunAppend(H.After(s, calls[0]), calls[1..], last);
      H.RunFirst(s, calls[0], calls[1..] + [last]);
      assert [calls[0]] + (calls[1..] + [last]) == calls + [last];
    }
  }

  /** Whole runs: as long as the sequence is not exhausted, every response of the writer is the
      reference store's, and the two end related. */
  lemma {:induction false} RunSimulates(ledgers: seq<Ledger>, requests: seq<Invitation>, responses: seq<W.Response>, s: S.StoreState, n: nat)
    requires WriterRun(ledgers, requests, responses) && S.Consistent(s) && Related(ledgers[0], s)
    requires forall i :: i in requests ==> InvitationRules(i)
    requires forall l :: l in ledgers ==> !W.SequencesExhausted(l.events)
    requires n <= |requests|
    ensures Related(ledgers[n], H.Run(s, IssueCalls(requests[..n])))
    ensures forall k {:trigger requests[k]} :: 0 <= k < n ==>
              SameClass(responses[k], S.IssueAnswer(H.Run(s, IssueCalls(requests[..k])), requests[k]))
  {
    hide Related, S.Consistent, W.Writes, InvitationRules, SameClass, W.SequencesExhausted, S.IssueAnswer;
    if n > 0 {
      RunSimulates(ledgers, requests, responses, s, n - 1);
      assert requests[n - 1] in requests && ledgers[n - 1] in ledgers;
      assert W.Writes(ledgers[n - 1], requests[n - 1], ledgers[n - 1 + 1], responses[n - 1]);
      RunStep(ledgers[n - 1], s, requests[..n - 1], requests[n - 1], ledgers[n], responses[n - 1]);
      assert requests[..n - 1] + [requests[n - 1]] == requests[..n];
    } else {
      assert IssueCalls(requests[..0]) == [];
    }
  }

  lemma RunStep(l: Ledger, s: S.StoreState, earlier: seq<Invitation>, i: Invitation, l': Ledger, response: W.Response)
    requires S.Consistent(s) && Related(l, H.Run(s, IssueCalls(earlier)))
    requires InvitationRules(i) && W.Writes(l, i, l', response) && !W.SequencesExhausted(l.events)
    ensures SameClass(response, S.IssueAnswer(H.Run(s, IssueCalls(earlier)), i))
    ensures Related(l', H.Run(s, IssueCalls(earlier + [i])))
  {
    hide Related, S.Consistent, W.Writes, InvitationRules, SameClass, W.SequencesExhausted, S.IssueAnswer, S.AfterIssue, H.Run;
    IssueSimulates(l, H.Run(s, IssueCalls(earlier)), i, l', response);
    assert IssueCalls(earlier + [i]) == IssueCalls(earlier) + [H.Issue(i)];
    RunAppend(s, IssueCalls(earlier), H.Issue(i));
  }

  /** Both begin empty, and so related. */
  lemma EmptyStatesRelated()
    ensures Related(Ledger({}, {}, {}), S.EMPTY_STORE)
  {
    W.EmptyIsCoherent();
    hide Coherent;
    assert V.LedgerOf([], [], []) == Ledger({}, {}, {});
  }
}
