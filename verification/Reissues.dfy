/** What acceptance of a ledger implies about row order and about reissues. */
module Reissues {
  import opened Wrappers
  import opened LedgerRecords
  import opened LedgerRules
  import opened LedgerScans
  import opened LedgerValidator

  /******* Row order *******/

  lemma SameRows<T>(s: seq<T>, t: seq<T>)
    requires multiset(s) == multiset(t)
    ensures Rows(s) == Rows(t)
  {
    forall x
      ensures x in s <==> x in t
    {
      assert x in s <==> x in multiset(s);
      assert x in t <==> x in multiset(t);
    }
  }

  lemma {:induction false} NoRepeatsCounts<T>(s: seq<T>)
    ensures NoRepeats(s) <==> forall x :: multiset(s)[x] <= 1
  {
    if s != [] {
      var last := |s| - 1;
      NoRepeatsCounts(s[..last]);
      assert s == s[..last] + [s[last]];
      assert multiset(s) == multiset(s[..last]) + multiset{s[last]};
      if NoRepeats(s) {
        assert s[last] !in s[..last];
        assert s[last] !in multiset(s[..last]);
        forall x
          ensures multiset(s)[x] <= 1
        {
          assert multiset(s[..last])[x] <= 1;
        }
      }
      if forall x :: multiset(s)[x] <= 1 {
        assert multiset(s)[s[last]] <= 1;
        assert s[last] !in multiset(s[..last]);
        assert s[last] !in s[..last];
        forall x
          ensures multiset(s[..last])[x] <= 1
        {
          assert multiset(s)[x] <= 1;
        }
        assert NoRepeats(s[..last]);
        forall i, j | 0 <= i < j < |s|
          ensures s[i] != s[j]
        {
          assert s[i] == s[..last][i] && s[i] in s[..last];
          if j < last {
            assert s[j] == s[..last][j];
          }
        }
      }
    }
  }

  /** Reading the same rows in another order is accepted in the same cases. */
  lemma AcceptanceIsOrderFree(invitations: seq<Invitation>, events: seq<Event>, revocations: seq<Revocation>,
                              invitations': seq<Invitation>, events': seq<Event>, revocations': seq<Revocation>)
    requires multiset(invitations) == multiset(invitations')
    requires multiset(events) == multiset(events')
    requires multiset(revocations) == multiset(revocations')
    ensures Acceptable(invitations, events, revocations) <==> Acceptable(invitations', events', revocations')
  {
    hide Coherent, NoRepeats, Rows;
    SameRows(invitations, invitations');
    SameRows(events, events');
    SameRows(revocations, revocations');
    NoRepeatsCounts(invitations);
    NoRepeatsCounts(invitations');
    NoRepeatsCounts(events);
    NoRepeatsCounts(events');
    NoRepeatsCounts(revocations);
    NoRepeatsCounts(revocations');
  }

  /******* Reissued invitations and REISSUED revocations *******/

  ghost function ReissuedInvitations(l: Ledger): set<Invitation> {
    set i | i in l.invitations && Reissued(l, i)
  }

  ghost function ReissueRevocations(l: Ledger): set<Revocation> {
    set r | r in l.revocations && r.reason == REISSUED
  }

  ghost predicate Replaces(l: Ledger, i: Invitation, r: Revocation) {
    r in ReissueRevocations(l) && exists s :: IsSource(l, i, s) && s.id == r.invitationId
  }

  ghost predicate IsReplacement(l: Ledger, i: Invitation, revocations: set<Revocation>) {
    exists r :: r in revocations && Replaces(l, i, r)
  }

  ghost predicate IsReplaced(l: Ledger, invitations: set<Invitation>, r: Revocation) {
    exists i :: i in invitations && Replaces(l, i, r)
  }

  ghost predicate OneToOne(l: Ledger, invitations: set<Invitation>, revocations: set<Revocation>) {
    && (forall i :: i in invitations ==> IsReplacement(l, i, revocations))
    && (forall r :: r in revocations ==> IsReplaced(l, invitations, r))
    && (forall i, j, q, r :: i in invitations && j in invitations && Replaces(l, i, q) && Replaces(l, j, r) ==>
          (i == j <==> q == r))
  }

  lemma {:induction false} OneToOneCounts(l: Ledger, invitations: set<Invitation>, revocations: set<Revocation>)
    requires OneToOne(l, invitations, revocations)
    ensures |invitations| == |revocations|
    decreases invitations
  {
    hide Replaces;
    if invitations == {} {
      assert forall r :: r in revocations ==> IsReplaced(l, {}, r);
      assert revocations == {};
    } else {
      var i :| i in invitations;
      assert IsReplacement(l, i, revocations);
      var r :| r in revocations && Replaces(l, i, r);
      forall j | j in invitations - {i}
        ensures IsReplacement(l, j, revocations - {r})
      {
        assert IsReplacement(l, j, revocations);
      }
      forall q | q in revocations - {r}
        ensures IsReplaced(l, invitations - {i}, q)
      {
        assert IsReplaced(l, invitations, q);
      }
      OneToOneCounts(l, invitations - {i}, revocations - {r});
    }
  }

  lemma ReissuedIsStored(l: Ledger, i: Invitation)
    requires Reissued(l, i)
    ensures i in l.invitations
  {
  }

  lemma SourceIsReplaced(l: Ledger, i: Invitation, s: Invitation) returns (r: Revocation)
    requires IsSource(l, i, s)
    ensures Replaces(l, i, r) && r.invitationId == s.id
  {
    r :| r in l.revocations && r.invitationId == s.id && r.revokedAt == i.issuedAt && r.reason == REISSUED;
  }

  lemma SourceIsStored(l: Ledger, i: Invitation, s: Invitation)
    requires IsSource(l, i, s)
    ensures s in l.invitations
  {
  }

  lemma ReplacementSource(l: Ledger, i: Invitation, r: Revocation) returns (s: Invitation)
    requires Replaces(l, i, r)
    ensures IsSource(l, i, s) && s.id == r.invitationId && s in l.invitations && r in l.revocations
  {
    s :| IsSource(l, i, s) && s.id == r.invitationId;
    SourceIsStored(l, i, s);
  }

  lemma SameReplacement(l: Ledger, i: Invitation, j: Invitation, q: Revocation, r: Revocation)
    requires UniqueInvitations(l.invitations) && RevocationsStored(l.invitations, l.revocations) && ReissuesMatched(l)
    requires Reissued(l, i) && Reissued(l, j) && Replaces(l, i, q) && Replaces(l, j, r)
    ensures i == j <==> q == r
  {
    hide IsSource, Reissued, Replaces;
    var s := ReplacementSource(l, i, q);
    var t := ReplacementSource(l, j, r);
  }

  lemma EachIsReplaced(l: Ledger, i: Invitation)
    requires ReissuesMatched(l) && Reissued(l, i)
    ensures IsReplacement(l, i, ReissueRevocations(l))
  {
    hide IsSource, Reissued;
    var s :| IsSource(l, i, s);
    var r := SourceIsReplaced(l, i, s);
  }

  lemma EachReplaces(l: Ledger, r: Revocation)
    requires ReissuesMatched(l) && r in ReissueRevocations(l)
    ensures IsReplaced(l, ReissuedInvitations(l), r)
  {
    hide IsSource, Reissued;
    var i, s :| Reissued(l, i) && IsSource(l, i, s) && s.id == r.invitationId;
    ReissuedIsStored(l, i);
    assert Replaces(l, i, r);
  }

  lemma ReplacementsAreUnique(l: Ledger)
    requires Coherent(l)
    ensures forall i, j, q, r :: i in ReissuedInvitations(l) && j in ReissuedInvitations(l) && Replaces(l, i, q) && Replaces(l, j, r) ==>
              (i == j <==> q == r)
  {
    hide UniqueInvitations, RevocationsStored, ReissuesMatched, RevocationsAudited, CreationsAudited, ReferencesAgree, UniqueEvents,
         OneFingerprint, Reissued, Replaces, InvitationBindings, EventBindings;
    forall i, j, q, r | i in ReissuedInvitations(l) && j in ReissuedInvitations(l) && Replaces(l, i, q) && Replaces(l, j, r)
      ensures i == j <==> q == r
    {
      SameReplacement(l, i, j, q, r);
    }
  }

  /** In every coherent ledger the reissued invitations and the REISSUED revocations are
      matched one to one, so there are equally many. */
  lemma ReissuesAreMatched(l: Ledger)
    requires Coherent(l)
    ensures OneToOne(l, ReissuedInvitations(l), ReissueRevocations(l))
    ensures |ReissuedInvitations(l)| == |ReissueRevocations(l)|
  {
    assert OneToOne(l, ReissuedInvitations(l), ReissueRevocations(l)) by {
      ReplacementsAreUnique(l);
      assert ReissuesMatched(l);
      hide Coherent, ReissuesMatched, Reissued, Replaces, ReissueRevocations, IsReplaced, IsReplacement;
      forall i | i in ReissuedInvitations(l)
        ensures IsReplacement(l, i, ReissueRevocations(l))
      {
        EachIsReplaced(l, i);
      }
      forall r | r in ReissueRevocations(l)
        ensures IsReplaced(l, ReissuedInvitations(l), r)
      {
        EachReplaces(l, r);
      }
    }
    hide *;
    OneToOneCounts(l, ReissuedInvitations(l), ReissueRevocations(l));
  }

  /******* Chains of reissues *******/

  /** Each invitation of the chain is a source of the one before it. */
  ghost predicate SourceChain(l: Ledger, chain: seq<Invitation>) {
    forall k :: 0 <= k < |chain| - 1 ==> IsSource(l, chain[k], chain[k + 1])
  }

  lemma {:induction false} ChainGoesBack(l: Ledger, chain: seq<Invitation>, j: nat, k: nat)
    requires SourceChain(l, chain) && j <= k < |chain|
    ensures chain[k].issuedAt <= chain[j].issuedAt
    decreases k - j
  {
    if j < k {
      ChainGoesBack(l, chain, j, k - 1);
      assert IsSource(l, chain[k - 1], chain[k - 1 + 1]);
    }
  }

  /** It was revoked as REISSUED at the very instant of its issue. */
  ghost predicate RevokedAtIssue(l: Ledger, i: Invitation) {
    exists r :: r in l.revocations && r.invitationId == i.id && r.reason == REISSUED && r.revokedAt == i.issuedAt
  }

  /** The chain comes back to where it began. */
  ghost predicate Returns(l: Ledger, chain: seq<Invitation>) {
    SourceChain(l, chain) && 1 < |chain| && chain[0] == chain[|chain| - 1]
  }

  /** The matching need not be acyclic: but a cycle is possible only among invitations
      issued at one instant and each revoked at that very instant. */
  lemma CyclesAreInstantaneous(l: Ledger, chain: seq<Invitation>, k: nat)
    requires Returns(l, chain) && k < |chain|
    ensures chain[k] in l.invitations && chain[k].issuedAt == chain[0].issuedAt && RevokedAtIssue(l, chain[k])
  {
    ChainGoesBack(l, chain, 0, k);
    ChainGoesBack(l, chain, k, |chain| - 1);
    var before := if k == 0 then |chain| - 2 else k - 1;
    ChainGoesBack(l, chain, 0, before);
    ChainGoesBack(l, chain, before, |chain| - 1);
    assert IsSource(l, chain[before], chain[before + 1]);
  }

  /** What a REISSUED revocation at the instant of issue is claimed by. */
  lemma Claimant(l: Ledger, i: Invitation) returns (j: Invitation)
    requires UniqueInvitations(l.invitations) && RevocationsStored(l.invitations, l.revocations) && ReissuesMatched(l)
    requires i in l.invitations && RevokedAtIssue(l, i)
    ensures Reissued(l, j) && IsSource(l, j, i) && j.issuedAt == i.issuedAt
  {
    hide Reissued;
    var r :| r in l.revocations && r.invitationId == i.id && r.reason == REISSUED && r.revokedAt == i.issuedAt;
    var s;
    j, s :| Reissued(l, j) && IsSource(l, j, s) && s.id == r.invitationId;
    assert s == i;
  }

  /** An invitation revoked so is the source of its own source, which is reissued, at the same
      instant: any other claimant would have both for sources. */
  lemma SourceIsReissuedBack(l: Ledger, i: Invitation, s: Invitation)
    requires UniqueInvitations(l.invitations) && RevocationsStored(l.invitations, l.revocations) && ReissuesMatched(l)
    requires i in l.invitations && RevokedAtIssue(l, i) && IsSource(l, i, s)
    ensures Reissued(l, s) && IsSource(l, s, i) && RevokedAtIssue(l, s)
  {
    var j := Claimant(l, i);
    ReissuedIsStored(l, j);
    hide Reissued;
    assert j.id != s.id ==> IsSource(l, j, s);
    assert !IsSource(l, j, s);
  }

  /** A reissued invitation revoked as REISSUED at its own issue, and its source, are each the
      source of the other. */
  lemma InstantReissueClosesPair(l: Ledger, i: Invitation) returns (s: Invitation)
    requires Coherent(l) && Reissued(l, i) && RevokedAtIssue(l, i)
    ensures s != i && IsSource(l, i, s) && IsSource(l, s, i) && Reissued(l, s) && RevokedAtIssue(l, s)
  {
    hide Coherent;
    CoherentMatches(l);
    ReissuedIsStored(l, i);
    hide Reissued;
    s :| IsSource(l, i, s);
    SourceIsReissuedBack(l, i, s);
  }

  lemma NextIsSource(l: Ledger, chain: seq<Invitation>, k: nat)
    requires SourceChain(l, chain) && k + 1 < |chain|
    ensures IsSource(l, chain[k], chain[k + 1])
  {
  }

  lemma MembersAreReissued(l: Ledger, chain: seq<Invitation>, k: nat)
    requires Coherent(l) && Returns(l, chain) && k < |chain|
    ensures Reissued(l, chain[k])
    ensures k > 0 ==> IsSource(l, chain[k], chain[k - 1])
  {
    hide Coherent, ReissuesMatched, UniqueInvitations, RevocationsStored, Reissued, RevokedAtIssue, IsSource, SourceChain;
    var before := if k == 0 then |chain| - 2 else k - 1;
    CyclesAreInstantaneous(l, chain, before);
    NextIsSource(l, chain, before);
    CoherentMatches(l);
    SourceIsReissuedBack(l, chain[before], chain[before + 1]);
  }

  lemma CoherentMatches(l: Ledger)
    requires Coherent(l)
    ensures UniqueInvitations(l.invitations) && RevocationsStored(l.invitations, l.revocations) && ReissuesMatched(l)
  {
    hide UniqueInvitations, RevocationsStored, ReissuesMatched, OneFingerprint, UniqueEvents, ReferencesAgree,
         RevocationsAudited, CreationsAudited;
  }

  lemma OneSource(l: Ledger, i: Invitation, s: Invitation, t: Invitation)
    requires Coherent(l) && Reissued(l, i) && IsSource(l, i, s) && IsSource(l, i, t)
    ensures s == t
  {
    hide Coherent, Reissued, IsSource;
    CoherentMatches(l);
  }

  /** Every returning chain goes back and forth between two reissued invitations. */
  lemma {:induction false} CyclesArePairs(l: Ledger, chain: seq<Invitation>, k: nat)
    requires Coherent(l) && Returns(l, chain) && k < |chain|
    ensures chain[k] == chain[k % 2] && Reissued(l, chain[k])
  {
    hide Coherent, Reissued, IsSource, SourceChain;
    MembersAreReissued(l, chain, k);
    if k > 1 {
      CyclesArePairs(l, chain, k - 2);
      MembersAreReissued(l, chain, k - 1);
      NextIsSource(l, chain, k - 1);
      OneSource(l, chain[k - 1], chain[k - 2], chain[k]);
    }
  }

  lemma PairReturns(l: Ledger, i: Invitation) returns (chain: seq<Invitation>)
    requires Coherent(l) && Reissued(l, i) && RevokedAtIssue(l, i)
    ensures Returns(l, chain)
  {
    hide Coherent, Reissued, IsSource, RevokedAtIssue;
    var s := InstantReissueClosesPair(l, i);
    chain := [i, s, i];
  }

  /** A chain of sources returns in exactly the ledgers that hold a reissued invitation revoked
      as REISSUED at its own issue. */
  lemma ChainsReturnExactly(l: Ledger)
    requires Coherent(l)
    ensures (exists chain :: Returns(l, chain)) <==> exists i :: Reissued(l, i) && RevokedAtIssue(l, i)
  {
    hide Coherent, Reissued, IsSource, RevokedAtIssue, SourceChain;
    if chain :| Returns(l, chain) {
      CyclesArePairs(l, chain, 0);
      CyclesAreInstantaneous(l, chain, 0);
      assert Reissued(l, chain[0]) && RevokedAtIssue(l, chain[0]);
    }
    if i :| Reissued(l, i) && RevokedAtIssue(l, i) {
      var chain := PairReturns(l, i);
    }
  }

  /******* Two invitations, each the source of the other *******/

  function Twin(id: Id): Invitation {
    Invitation(id, Binding(Version(0, 0), 0), id, SHA256_V1, 0, 0, 5, 9)
  }

  function TwinCreation(id: Id, eventId: string, sequence: int): Event {
    Event(eventId, sequence, INVITATION_REISSUED, 5, Binding(Version(0, 0), 0), SUCCEEDED, Some(id), None, None,
          Some(Revoked(REISSUED)), None, Sqlite)
  }

  function TwinRevocation(id: Id, eventId: string, sequence: int): Event {
    Event(eventId, sequence, INVITATION_REVOKED, 5, Binding(Version(0, 0), 0), SUCCEEDED, Some(id), None, None,
          Some(Revoked(REISSUED)), None, Sqlite)
  }

  function Twins(): Ledger {
    Ledger({Twin(1), Twin(2)},
           {Revocation(1, 5, 0, REISSUED), Revocation(2, 5, 0, REISSUED)},
           {TwinCreation(1, "a", 1), TwinCreation(2, "b", 2), TwinRevocation(1, "c", 3), TwinRevocation(2, "d", 4)})
  }

  lemma TwinsAreSources()
    ensures IsSource(Twins(), Twin(1), Twin(2)) && IsSource(Twins(), Twin(2), Twin(1))
    ensures forall i, s :: i in Twins().invitations && IsSource(Twins(), i, s) ==> i != s
  {
    assert Revocation(2, 5, 0, REISSUED) in Twins().revocations && Revocation(1, 5, 0, REISSUED) in Twins().revocations;
  }

  lemma TwinEvents(e: Event)
    requires e in Twins().events
    ensures e.invitationId in {Some(1), Some(2)} && AuditRules(e)
    ensures IsCreation(e) ==> e == if e.invitationId == Some(1) then TwinCreation(1, "a", 1) else TwinCreation(2, "b", 2)
    ensures IsRevoking(e) ==> e == if e.invitationId == Some(1) then TwinRevocation(1, "c", 3) else TwinRevocation(2, "d", 4)
    ensures IsCreation(e) || IsRevoking(e)
  {
  }

  lemma TwinRevocationsAudited()
    ensures RevocationsAudited(Twins())
  {
    var l := Twins();
    assert forall id :: id in {1, 2} ==> Twin(id) in l.invitations && Revocation(id, 5, 0, REISSUED) in l.revocations;
    assert TwinRevocation(1, "c", 3) in l.events && TwinRevocation(2, "d", 4) in l.events;
    assert RevocationRecorded(l, Revocation(1, 5, 0, REISSUED)) && RevocationRecorded(l, Revocation(2, 5, 0, REISSUED));
    assert forall r :: r in l.revocations ==> r == Revocation(r.invitationId, 5, 0, REISSUED) && r.invitationId in {1, 2};
    hide Twins, RevocationRecorded;
    forall e | e in l.events && IsRevoking(e)
      ensures RevokingEventFits(l, e)
    {
      TwinEvents(e);
      var id := e.invitationId.value;
      assert RecordsRevocation(e, Twin(id), Revocation(id, 5, 0, REISSUED));
      forall f | f in l.events && IsRevoking(f) && SameTarget(e, f)
        ensures e == f
      {
        TwinEvents(f);
      }
    }
  }

  lemma TwinCreationsAudited()
    ensures CreationsAudited(Twins())
  {
    var l := Twins();
    assert forall id :: id in {1, 2} ==> Twin(id) in l.invitations;
    assert TwinCreation(1, "a", 1) in l.events && TwinCreation(2, "b", 2) in l.events;
    assert CreationRecorded(l, Twin(1)) && CreationRecorded(l, Twin(2));
    assert forall i :: i in l.invitations ==> i == Twin(i.id) && i.id in {1, 2};
    hide Twins, CreationRecorded;
    forall e | e in l.events && IsCreation(e)
      ensures CreationEventFits(l, e)
    {
      TwinEvents(e);
      var id := e.invitationId.value;
      assert RecordsCreation(e, Twin(id));
      forall f | f in l.events && IsCreation(f) && SameTarget(e, f)
        ensures e == f
      {
        TwinEvents(f);
      }
    }
  }

  lemma TwinsRefer()
    ensures ReferencesAgree(Twins().invitations, Twins().events) && RevocationsStored(Twins().invitations, Twins().revocations)
    ensures RowsValid(Twins())
  {
    var l := Twins();
    assert forall id :: id in {1, 2} ==> Twin(id) in l.invitations;
    assert forall i :: i in l.invitations ==> i == Twin(i.id) && i.id in {1, 2};
    assert forall r :: r in l.revocations ==> r == Revocation(r.invitationId, 5, 0, REISSUED) && r.invitationId in {1, 2};
    forall e | e in l.events
      ensures e.invitationId in {Some(1), Some(2)} && AuditRules(e) && e.binding == Binding(Version(0, 0), 0)
    {
      TwinEvents(e);
    }
    hide Twins, AuditRules;
  }

  lemma TwinsMatch()
    ensures ReissuesMatched(Twins())
  {
    var l := Twins();
    TwinsAreSources();
    assert TwinCreation(1, "a", 1) in l.events && TwinCreation(2, "b", 2) in l.events;
    assert Twin(1) in l.invitations && Twin(2) in l.invitations;
    assert Reissued(l, Twin(1)) && Reissued(l, Twin(2));
    assert forall i :: i in l.invitations ==> i == Twin(i.id) && i.id in {1, 2};
    assert forall r :: r in l.revocations ==> r.invitationId in {1, 2};
    hide Twins, IsSource, Reissued;
    forall i | Reissued(l, i)
      ensures i in {Twin(1), Twin(2)}
    {
      ReissuedIsStored(l, i);
    }
    forall i, s | IsSource(l, i, s)
      ensures s in {Twin(1), Twin(2)}
    {
      SourceIsStored(l, i, s);
    }
  }

  /** A cycle that the validator accepts. */
  lemma AcceptedCycle()
    ensures Coherent(Twins()) && RowsValid(Twins())
    ensures SourceChain(Twins(), [Twin(1), Twin(2), Twin(1)])
  {
    TwinsAreSources();
    TwinRevocationsAudited();
    TwinCreationsAudited();
    TwinsRefer();
    TwinsMatch();
    hide RevocationsAudited, CreationsAudited, ReferencesAgree, RevocationsStored, ReissuesMatched, IsSource, RowsValid;
    assert "a"[0] == 'a' && "b"[0] == 'b' && "c"[0] == 'c' && "d"[0] == 'd';
  }
}
