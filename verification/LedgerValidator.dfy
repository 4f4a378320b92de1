/** The second half of the validator: provenance of every revocation and invitation. The
    whole accepts exactly the coherent ledgers. */
module LedgerValidator {
  import opened Wrappers
  import opened LedgerRecords
  import opened LedgerRules
  import opened LedgerScans

  /******* Revocation events *******/

  lemma OnlyListed(groups: map<Id, seq<Event>>, kind: Kind, events: set<Event>, k: Id, e: Event)
    requires Groups(groups, kind, events) && k in groups && |groups[k]| == 1
    requires e in events && OfKind(kind, e) && e.invitationId == Some(k)
    ensures e == groups[k][0]
  {
  }

  lemma ListedTwice(groups: map<Id, seq<Event>>, kind: Kind, events: set<Event>, k: Id)
    requires Groups(groups, kind, events) && k in groups && |groups[k]| != 1
    ensures exists e, f :: e in events && f in events && OfKind(kind, e) && OfKind(kind, f) && SameTarget(e, f) && e != f &&
                           e.invitationId == Some(k)
  {
    assert NoRepeats(groups[k]) && groups[k] != [];
    var e, f := groups[k][0], groups[k][1];
    assert e in groups[k] && f in groups[k];
    assert SameTarget(e, f);
  }

  method CheckRevocationEvents(revokings: map<Id, seq<Event>>, byId: map<Id, Invitation>,
                               revocationOf: map<Id, Revocation>, ghost l: Ledger)
    returns (ok: bool)
    requires Groups(revokings, Revoking, l.events)
    requires IndexesInvitations(byId, l.invitations) && IndexesRevocations(revocationOf, l.revocations)
    ensures ok <==> forall e :: e in l.events && IsRevoking(e) ==> RevokingEventFits(l, e)
  {
    var left := revokings.Keys;
    while left != {}
      invariant left <= revokings.Keys
      invariant forall e :: e in l.events && IsRevoking(e) && e.invitationId.value !in left ==> RevokingEventFits(l, e)
      decreases |left|
    {
      SomeMember(left);
      var k :| k in left;
      ok := CheckRevocationEvent(k, revokings, byId, revocationOf, l);
      if !ok {
        return;
      }
      left := left - {k};
    }
    ok := true;
  }

  method CheckRevocationEvent(k: Id, revokings: map<Id, seq<Event>>, byId: map<Id, Invitation>,
                              revocationOf: map<Id, Revocation>, ghost l: Ledger)
    returns (ok: bool)
    requires Groups(revokings, Revoking, l.events) && k in revokings
    requires IndexesInvitations(byId, l.invitations) && IndexesRevocations(revocationOf, l.revocations)
    ensures ok <==> forall e :: e in l.events && IsRevoking(e) && e.invitationId == Some(k) ==> RevokingEventFits(l, e)
  {
    ghost var first := revokings[k][0];
    assert first in revokings[k];
    if |revokings[k]| != 1 {
      ListedTwice(revokings, Revoking, l.events, k);
      ghost var e, f :| e in l.events && f in l.events && OfKind(Revoking, e) && OfKind(Revoking, f) && SameTarget(e, f) && e != f;
      assert !RevokingEventFits(l, e);
      return false;
    }
    forall e | e in l.events && IsRevoking(e) && e.invitationId == Some(k)
      ensures e == first
    {
      OnlyListed(revokings, Revoking, l.events, k, e);
    }
    if k !in byId || k !in revocationOf {
      assert !RevokingEventFits(l, first);
      return false;
    }
    ok := RecordsRevocation(revokings[k][0], byId[k], revocationOf[k]);
    assert ok <==> RevokingEventFits(l, first);
  }

  method CheckRevocationsAudited(revocationOf: map<Id, Revocation>, revokings: map<Id, seq<Event>>, ghost l: Ledger)
    returns (ok: bool)
    requires Groups(revokings, Revoking, l.events) && IndexesRevocations(revocationOf, l.revocations)
    requires forall e :: e in l.events && IsRevoking(e) ==> RevokingEventFits(l, e)
    ensures ok <==> RevocationsAudited(l)
  {
    var left := revocationOf.Keys;
    while left != {}
      invariant left <= revocationOf.Keys
      invariant forall k :: k in revocationOf && k !in left ==> k in revokings
      decreases |left|
    {
      SomeMember(left);
      var k :| k in left;
      if k in revokings && |revokings[k]| != 1 {
        ListedTwice(revokings, Revoking, l.events, k);
        assert false;
      }
      if k !in revokings {
        assert revocationOf[k] in l.revocations;
        return false;
      }
      left := left - {k};
    }
    ok := true;
    forall r | r in l.revocations
      ensures RevocationRecorded(l, r)
    {
      assert r.invitationId in revokings;
      var e := revokings[r.invitationId][0];
      assert e in revokings[r.invitationId];
      assert OfKind(Revoking, e) && e in l.events;
    }
  }

  /******* The source of a reissued invitation *******/

  ghost predicate OnlySource(l: Ledger, i: Invitation, s: Invitation) {
    IsSource(l, i, s) && forall t :: IsSource(l, i, t) ==> t == s
  }

  /** Collects the candidates; none or several is corruption. The count of matching
      revocation audits, checked last, is always one by then. */
  method ReissueSource(replacement: Invitation, invitations: seq<Invitation>, revocationOf: map<Id, Revocation>,
                       events: seq<Event>, ghost l: Ledger)
    returns (source: Option<Invitation>)
    requires l.invitations == Rows(invitations) && NoRepeats(invitations) && UniqueInvitations(l.invitations)
    requires l.events == Rows(events) && NoRepeats(events)
    requires IndexesRevocations(revocationOf, l.revocations) && RevocationsAudited(l)
    ensures source.Some? ==> OnlySource(l, replacement, source.value)
    ensures source.None? ==> !exists s :: OnlySource(l, replacement, s)
  {
    var candidates := Candidates(replacement, invitations, revocationOf, l);
    if |candidates| != 1 {
      SeveralOrNone(candidates, l, replacement);
      return None;
    }
    assert candidates[0] in candidates;
    assert IsSource(l, replacement, candidates[0]);
    var matching := CountRevocationEvents(candidates[0], revocationOf[candidates[0].id], events, l);
    if matching != 1 {
      assert false;
    }
    return Some(candidates[0]);
  }

  lemma SeveralOrNone(candidates: seq<Invitation>, l: Ledger, i: Invitation)
    requires forall s :: s in candidates <==> IsSource(l, i, s)
    requires NoRepeats(candidates) && |candidates| != 1
    ensures !exists s :: OnlySource(l, i, s)
  {
    if |candidates| > 1 {
      assert candidates[0] in candidates && candidates[1] in candidates;
      assert candidates[0] != candidates[1];
    }
  }

  method Candidates(replacement: Invitation, invitations: seq<Invitation>, revocationOf: map<Id, Revocation>, ghost l: Ledger)
    returns (candidates: seq<Invitation>)
    requires l.invitations == Rows(invitations) && NoRepeats(invitations)
    requires IndexesRevocations(revocationOf, l.revocations)
    ensures forall s :: s in candidates <==> IsSource(l, replacement, s)
    ensures NoRepeats(candidates)
  {
    candidates := [];
    for k := 0 to |invitations|
      invariant forall s :: s in candidates <==> s in Rows(invitations[..k]) && IsSource(l, replacement, s)
      invariant NoRepeats(candidates)
    {
      var s := invitations[k];
      NextRow(invitations, k);
      var isSource := false;
      if s.id != replacement.id && s.binding == replacement.binding && s.issuedAt <= replacement.issuedAt {
        isSource := s.id in revocationOf && revocationOf[s.id].revokedAt == replacement.issuedAt
          && revocationOf[s.id].reason == REISSUED;
      }
      IsCandidate(replacement, s, revocationOf, l, isSource);
      if isSource {
        candidates := candidates + [s];
      }
    }
    AllRows(invitations);
    assert forall s :: IsSource(l, replacement, s) ==> s in Rows(invitations);
  }

  lemma IsCandidate(i: Invitation, s: Invitation, revocationOf: map<Id, Revocation>, l: Ledger, isSource: bool)
    requires s in l.invitations && IndexesRevocations(revocationOf, l.revocations)
    requires isSource <==>
      && s.id != i.id && s.binding == i.binding && s.issuedAt <= i.issuedAt
      && s.id in revocationOf && revocationOf[s.id].revokedAt == i.issuedAt && revocationOf[s.id].reason == REISSUED
    ensures isSource <==> IsSource(l, i, s)
  {
    if isSource {
      assert revocationOf[s.id] in l.revocations;
    }
  }

  lemma SoleRevocationEvent(l: Ledger, s: Invitation, r: Revocation) returns (e: Event)
    requires UniqueInvitations(l.invitations) && RevocationsAudited(l) && s in l.invitations
    requires r in l.revocations && forall other :: other in l.revocations && other.invitationId == s.id ==> other == r
    requires r.invitationId == s.id
    ensures e in l.events && RecordsRevocation(e, s, r)
    ensures forall f :: f in l.events && RecordsRevocation(f, s, r) ==> f == e
  {
    e :| e in l.events && IsRevoking(e) && e.invitationId == Some(r.invitationId);
    forall f | f in l.events && RecordsRevocation(f, s, r)
      ensures f == e
    {
      assert SameTarget(e, f) && IsRevoking(f);
    }
  }

  method CountRevocationEvents(source: Invitation, revocation: Revocation, events: seq<Event>, ghost l: Ledger)
    returns (count: nat)
    requires l.events == Rows(events) && NoRepeats(events) && UniqueInvitations(l.invitations)
    requires RevocationsAudited(l) && source in l.invitations
    requires revocation in l.revocations && revocation.invitationId == source.id
    requires forall other :: other in l.revocations && other.invitationId == source.id ==> other == revocation
    ensures count == 1
  {
    count := 0;
    ghost var e := SoleRevocationEvent(l, source, revocation);
    hide RevocationsAudited, UniqueInvitations, RecordsRevocation;
    for k := 0 to |events|
      invariant count == if e in Rows(events[..k]) then 1 else 0
    {
      NextRow(events, k);
      if RecordsRevocation(events[k], source, revocation) {
        count := count + 1;
      }
    }
    AllRows(events);
  }

  /******* Creation events *******/

  /** The creation events of one invitation prove its provenance. */
  ghost predicate CreatedOnce(l: Ledger, byId: map<Id, Invitation>, creations: map<Id, seq<Event>>, k: Id) {
    && k in byId && k in creations && |creations[k]| == 1 && RecordsCreation(creations[k][0], byId[k])
    && (creations[k][0].eventType == INVITATION_REISSUED ==> exists s :: OnlySource(l, byId[k], s))
  }

  ghost predicate Claims(l: Ledger, byId: map<Id, Invitation>, creations: map<Id, seq<Event>>, k: Id, s: Invitation) {
    k in byId && k in creations && creations[k] != [] && creations[k][0].eventType == INVITATION_REISSUED && IsSource(l, byId[k], s)
  }

  /** What the loop has established once the groups named by done are behind it. */
  ghost predicate Handled(l: Ledger, byId: map<Id, Invitation>, creations: map<Id, seq<Event>>, done: set<Id>, claimed: set<Id>) {
    && (forall k :: k in done ==> CreatedOnce(l, byId, creations, k))
    && (forall c :: c in claimed <==> exists k, s :: k in done && Claims(l, byId, creations, k, s) && s.id == c)
    && (forall j, k, s :: j in done && k in done && Claims(l, byId, creations, j, s) && Claims(l, byId, creations, k, s) ==> j == k)
  }

  /** Everything the loop over creation events decides. */
  ghost predicate CreationsExplained(l: Ledger) {
    && (forall e :: e in l.events && IsCreation(e) ==> CreationEventFits(l, e))
    && (forall i :: Reissued(l, i) ==> exists s :: OnlySource(l, i, s))
    && (forall i, j, s :: Reissued(l, i) && Reissued(l, j) && IsSource(l, i, s) && IsSource(l, j, s) ==> i == j)
  }

  method CheckCreations(creations: map<Id, seq<Event>>, byId: map<Id, Invitation>, invitations: seq<Invitation>,
                        revocationOf: map<Id, Revocation>, events: seq<Event>, ghost l: Ledger)
    returns (ok: bool, claimed: set<Id>)
    requires l.invitations == Rows(invitations) && NoRepeats(invitations) && UniqueInvitations(l.invitations)
    requires l.events == Rows(events) && NoRepeats(events)
    requires IndexesInvitations(byId, l.invitations) && IndexesRevocations(revocationOf, l.revocations)
    requires RevocationsAudited(l) && Groups(creations, Creating, l.events)
    ensures ok <==> CreationsExplained(l)
    ensures ok ==> Handled(l, byId, creations, creations.Keys, claimed)
  {
    var left := creations.Keys;
    claimed := {};
    hide Groups, RevocationsAudited, UniqueInvitations, NoRepeats, IndexesInvitations, IndexesRevocations, CreationsExplained,
         Claims, CreatedOnce;
    while left != {}
      invariant left <= creations.Keys
      invariant Handled(l, byId, creations, creations.Keys - left, claimed)
      decreases |left|
    {
      hide Handled;
      SomeMember(left);
      var k :| k in left;
      ok, claimed := CheckCreation(k, creations, byId, invitations, revocationOf, events, claimed, creations.Keys - left, l);
      if !ok {
        return;
      }
      assert creations.Keys - (left - {k}) == creations.Keys - left + {k};
      left := left - {k};
    }
    ok := true;
    assert creations.Keys - {} == creations.Keys;
    HandledExplains(l, byId, creations, claimed);
  }

  method CheckCreation(k: Id, creations: map<Id, seq<Event>>, byId: map<Id, Invitation>, invitations: seq<Invitation>,
                       revocationOf: map<Id, Revocation>, events: seq<Event>, claimed: set<Id>, ghost done: set<Id>, ghost l: Ledger)
    returns (ok: bool, claimed': set<Id>)
    requires k in creations && k !in done && done <= creations.Keys
    requires l.invitations == Rows(invitations) && NoRepeats(invitations) && UniqueInvitations(l.invitations)
    requires l.events == Rows(events) && NoRepeats(events)
    requires IndexesInvitations(byId, l.invitations) && IndexesRevocations(revocationOf, l.revocations)
    requires RevocationsAudited(l) && Groups(creations, Creating, l.events)
    requires Handled(l, byId, creations, done, claimed)
    ensures ok ==> Handled(l, byId, creations, done + {k}, claimed')
    ensures !ok ==> !CreationsExplained(l)
  {
    hide Handled, RevocationsAudited, UniqueInvitations, NoRepeats, IndexesRevocations, CreationsExplained, IsSource, OnlySource;
    claimed' := claimed;
    if k !in byId || |creations[k]| != 1 || !RecordsCreation(creations[k][0], byId[k]) {
      if CreationsExplained(l) {
        ExplainedCreation(l, byId, creations, k);
        assert false;
      }
      return false, claimed';
    }
    if creations[k][0].eventType == INVITATION_ISSUED {
      HandleIssued(l, byId, creations, done, claimed, k);
      return true, claimed';
    }
    var source := ReissueSource(byId[k], invitations, revocationOf, events, l);
    if source.None? {
      if CreationsExplained(l) {
        ExplainedCreation(l, byId, creations, k);
        assert false;
      }
      return false, claimed';
    }
    HandleReissued(l, byId, creations, done, claimed, k, source.value);
    ok := source.value.id !in claimed;
    claimed' := claimed + {source.value.id};
  }

  lemma ExplainedCreation(l: Ledger, byId: map<Id, Invitation>, creations: map<Id, seq<Event>>, k: Id)
    requires UniqueInvitations(l.invitations) && IndexesInvitations(byId, l.invitations)
    requires Groups(creations, Creating, l.events) && k in creations
    requires CreationsExplained(l)
    ensures CreatedOnce(l, byId, creations, k)
  {
    hide IsSource, OnlySource;
    var e := creations[k][0];
    assert e in creations[k] && OfKind(Creating, e);
    if |creations[k]| != 1 {
      ListedTwice(creations, Creating, l.events, k);
      assert false;
    }
    var i :| i in l.invitations && RecordsCreation(e, i);
    if e.eventType == INVITATION_REISSUED {
      assert Reissued(l, i);
    }
  }

  lemma HandleIssued(l: Ledger, byId: map<Id, Invitation>, creations: map<Id, seq<Event>>, done: set<Id>, claimed: set<Id>, k: Id)
    requires Handled(l, byId, creations, done, claimed) && CreatedOnce(l, byId, creations, k)
    requires creations[k][0].eventType == INVITATION_ISSUED
    ensures Handled(l, byId, creations, done + {k}, claimed)
  {
    hide IsSource, OnlySource;
    assert forall s :: !Claims(l, byId, creations, k, s);
  }

  lemma HandleReissued(l: Ledger, byId: map<Id, Invitation>, creations: map<Id, seq<Event>>, done: set<Id>, claimed: set<Id>,
                       k: Id, source: Invitation)
    requires Handled(l, byId, creations, done, claimed) && k !in done && done <= creations.Keys
    requires Groups(creations, Creating, l.events) && IndexesInvitations(byId, l.invitations) && UniqueInvitations(l.invitations)
    requires k in byId && k in creations && |creations[k]| == 1 && RecordsCreation(creations[k][0], byId[k])
    requires creations[k][0].eventType == INVITATION_REISSUED && OnlySource(l, byId[k], source)
    ensures source.id !in claimed ==> Handled(l, byId, creations, done + {k}, claimed + {source.id})
    ensures source.id in claimed ==> !CreationsExplained(l)
  {
    assert Claims(l, byId, creations, k, source);
    assert forall s :: Claims(l, byId, creations, k, s) ==> s == source;
    assert forall s, j :: Claims(l, byId, creations, j, s) && s.id == source.id ==> s == source;
    if source.id in claimed {
      var j, s :| j in done && Claims(l, byId, creations, j, s) && s.id == source.id;
      ClaimedTwice(l, byId, creations, j, k, s);
    }
    hide IsSource, OnlySource, Claims;
  }

  lemma ClaimedTwice(l: Ledger, byId: map<Id, Invitation>, creations: map<Id, seq<Event>>, j: Id, k: Id, s: Invitation)
    requires Groups(creations, Creating, l.events) && IndexesInvitations(byId, l.invitations)
    requires Claims(l, byId, creations, j, s) && Claims(l, byId, creations, k, s) && j != k
    ensures !CreationsExplained(l)
  {
    hide IsSource, OnlySource;
    assert creations[j][0] in creations[j] && creations[k][0] in creations[k];
    assert Reissued(l, byId[j]) && Reissued(l, byId[k]);
  }

  lemma HandledExplains(l: Ledger, byId: map<Id, Invitation>, creations: map<Id, seq<Event>>, claimed: set<Id>)
    requires Groups(creations, Creating, l.events) && IndexesInvitations(byId, l.invitations)
    requires Handled(l, byId, creations, creations.Keys, claimed)
    ensures CreationsExplained(l)
  {
    hide IsSource, OnlySource;
    forall e | e in l.events && IsCreation(e)
      ensures e.invitationId.Some? && e.invitationId.value in byId && e.invitationId.value in creations
      ensures |creations[e.invitationId.value]| == 1 && e == creations[e.invitationId.value][0]
      ensures RecordsCreation(e, byId[e.invitationId.value])
    {
      assert OfKind(Creating, e);
      OnlyListed(creations, Creating, l.events, e.invitationId.value, e);
    }
    forall i | Reissued(l, i)
      ensures i.id in creations && byId[i.id] == i && exists s :: OnlySource(l, i, s)
    {
    }
    forall i, j, s | Reissued(l, i) && Reissued(l, j) && IsSource(l, i, s) && IsSource(l, j, s)
      ensures i == j
    {
      assert Claims(l, byId, creations, i.id, s) && Claims(l, byId, creations, j.id, s);
    }
  }

  method CheckReissuesClaimed(revocations: seq<Revocation>, claimed: set<Id>, byId: map<Id, Invitation>,
                              creations: map<Id, seq<Event>>, ghost l: Ledger)
    returns (ok: bool)
    requires l.revocations == Rows(revocations) && IndexesInvitations(byId, l.invitations)
    requires Groups(creations, Creating, l.events) && CreationsExplained(l)
    requires Handled(l, byId, creations, creations.Keys, claimed)
    ensures ok <==> ReissuesMatched(l)
  {
    hide IsSource, OnlySource, Claims, Groups, Handled, CreationsExplained, IndexesInvitations;
    forall r | r in l.revocations
      ensures r.invitationId in claimed <==> exists i, s :: Reissued(l, i) && IsSource(l, i, s) && s.id == r.invitationId
    {
      ClaimedMeansSource(l, byId, creations, claimed, r.invitationId);
    }
    for k := 0 to |revocations|
      invariant forall r :: r in Rows(revocations[..k]) && r.reason == REISSUED ==> r.invitationId in claimed
    {
      NextRow(revocations, k);
      if revocations[k].reason == REISSUED && revocations[k].invitationId !in claimed {
        return false;
      }
    }
    AllRows(revocations);
    SourcesAreUnique(l);
    ok := true;
  }

  lemma ClaimedMeansSource(l: Ledger, byId: map<Id, Invitation>, creations: map<Id, seq<Event>>, claimed: set<Id>, c: Id)
    requires Groups(creations, Creating, l.events) && IndexesInvitations(byId, l.invitations)
    requires Handled(l, byId, creations, creations.Keys, claimed)
    ensures c in claimed <==> exists i, s :: Reissued(l, i) && IsSource(l, i, s) && s.id == c
  {
    hide IsSource, OnlySource;
    if c in claimed {
      var k, s :| k in creations && Claims(l, byId, creations, k, s) && s.id == c;
      assert creations[k][0] in creations[k];
      assert Reissued(l, byId[k]);
    }
    if i, s :| Reissued(l, i) && IsSource(l, i, s) && s.id == c {
      var e :| e in l.events && e.eventType == INVITATION_REISSUED && e.invitationId == Some(i.id);
      assert OfKind(Creating, e);
      OnlyListed(creations, Creating, l.events, i.id, e);
      assert Claims(l, byId, creations, i.id, s);
    }
  }

  lemma SourcesAreUnique(l: Ledger)
    requires CreationsExplained(l)
    ensures forall i, s, t :: Reissued(l, i) && IsSource(l, i, s) && IsSource(l, i, t) ==> s == t
    ensures forall i :: Reissued(l, i) ==> exists s :: IsSource(l, i, s)
    ensures forall i, j, s :: Reissued(l, i) && Reissued(l, j) && IsSource(l, i, s) && IsSource(l, j, s) ==> i == j
  {
    hide IsSource;
    forall i | Reissued(l, i)
      ensures exists s :: OnlySource(l, i, s)
    {
    }
  }

  method CheckAllCreated(invitations: seq<Invitation>, creations: map<Id, seq<Event>>, ghost l: Ledger)
    returns (ok: bool)
    requires l.invitations == Rows(invitations) && Groups(creations, Creating, l.events) && CreationsExplained(l)
    ensures ok <==> CreationsAudited(l)
  {
    ok := true;
    for k := 0 to |invitations|
      invariant forall i :: i in Rows(invitations[..k]) ==> i.id in creations
    {
      NextRow(invitations, k);
      var id := invitations[k].id;
      if id in creations && |creations[id]| != 1 {
        ListedTwice(creations, Creating, l.events, id);
        assert false;
      }
      if id !in creations {
        return false;
      }
    }
    AllRows(invitations);
    forall i | i in l.invitations
      ensures CreationRecorded(l, i)
    {
      var e := creations[i.id][0];
      assert e in creations[i.id];
      assert OfKind(Creating, e) && e in l.events;
    }
  }

  /******* The whole validator *******/

  function LedgerOf(invitations: seq<Invitation>, events: seq<Event>, revocations: seq<Revocation>): Ledger {
    Ledger(Rows(invitations), Rows(revocations), Rows(events))
  }

  /** Coherence, cut into the conditions that the loops decide in turn. */
  lemma CoherentMeans(l: Ledger)
    ensures Coherent(l) <==>
      && UniqueInvitations(l.invitations)
      && OneFingerprint(InvitationBindings(l.invitations))
      && RevocationsStored(l.invitations, l.revocations)
      && EventsFit(l.invitations, InvitationBindings(l.invitations), l.events)
      && RevocationsAudited(l)
      && CreationsExplained(l)
      && ReissuesMatched(l)
      && CreationsAudited(l)
  {
    assert RevocationsAudited(l) && CreationsAudited(l) ==> Addressed(Creating, l.events) && Addressed(Revoking, l.events) by {
      hide ReissuesMatched, RevocationRecorded, CreationRecorded;
    }
    assert OneFingerprint(InvitationBindings(l.invitations) + EventBindings(l.events)) ==>
        OneFingerprint(InvitationBindings(l.invitations)) by {
      hide InvitationBindings, EventBindings;
      assert InvitationBindings(l.invitations) <= InvitationBindings(l.invitations) + EventBindings(l.events);
    }
    if ReissuesMatched(l) && CreationsAudited(l) {
      MatchedExplains(l);
    }
    hide Addressed, RevocationsAudited, CreationsAudited, OneFingerprint, UniqueInvitations, UniqueEvents,
         RevocationsStored, ReferencesAgree, ReissuesMatched, CreationsExplained, InvitationBindings, EventBindings;
  }

  lemma MatchedExplains(l: Ledger)
    requires ReissuesMatched(l) && CreationsAudited(l)
    ensures CreationsExplained(l)
  {
    hide IsSource, Reissued, IsCreation, CreationEventFits, CreationRecorded;
    forall i | Reissued(l, i)
      ensures exists s :: OnlySource(l, i, s)
    {
      var s :| IsSource(l, i, s);
      assert OnlySource(l, i, s);
    }
  }

  /** What the tables must be for a write to proceed. */
  ghost predicate Acceptable(invitations: seq<Invitation>, events: seq<Event>, revocations: seq<Revocation>) {
    && NoRepeats(invitations) && NoRepeats(events) && NoRepeats(revocations)
    && Coherent(LedgerOf(invitations, events, revocations))
  }

  /** Accepts exactly the coherent ledgers, whatever the row order, and answers the binding
      of every contract version it mentions. */
  method ValidateWriteState(invitations: seq<Invitation>, events: seq<Event>, revocations: seq<Revocation>)
    returns (accepted: Option<map<Version, Binding>>)
    ensures accepted.Some? <==> Acceptable(invitations, events, revocations)
    ensures accepted.Some? ==>
      Remembers(accepted.value, InvitationBindings(Rows(invitations)) + EventBindings(Rows(events)))
  {
    ghost var l := LedgerOf(invitations, events, revocations);
    CoherentMeans(l);
    hide Coherent, UniqueInvitations, OneFingerprint, RevocationsStored, EventsFit, CreationsExplained,
         ReissuesMatched, CreationsAudited, RevokingEventFits, RevocationRecorded, Remembers, Groups, Handled, IndexesInvitations,
         IndexesRevocations, NoRepeats, InvitationBindings, EventBindings;
    var ok, byId, remembered := ScanInvitations(invitations);
    if !ok {
      return None;
    }
    var revocationOf;
    ok, revocationOf := ScanRevocations(revocations, byId, l.invitations);
    if !ok {
      return None;
    }
    var bindings, creations, revokings;
    ok, bindings, creations, revokings := ScanEvents(events, byId, remembered, l.invitations, InvitationBindings(l.invitations));
    if !ok {
      return None;
    }
    ok := CheckRevocationEvents(revokings, byId, revocationOf, l);
    if !ok {
      return None;
    }
    ok := CheckRevocationsAudited(revocationOf, revokings, l);
    if !ok {
      return None;
    }
    var claimed;
    ok, claimed := CheckCreations(creations, byId, invitations, revocationOf, events, l);
    if !ok {
      return None;
    }
    ok := CheckReissuesClaimed(revocations, claimed, byId, creations, l);
    if !ok {
      return None;
    }
    ok := CheckAllCreated(invitations, creations, l);
    return if ok then Some(bindings) else None;
  }
}
