/** The first half of the validator that must pass before each ledger write: one loop for
    each table, filling the dictionaries that the second half consults. */
module LedgerScans {
  import opened Wrappers
  import opened LedgerRecords
  import opened LedgerRules

  function Rows<T>(s: seq<T>): set<T> {
    set x | x in s
  }

  predicate NoRepeats<T(==)>(s: seq<T>) {
    forall i, j :: 0 <= i < j < |s| ==> s[i] != s[j]
  }

  /** Reading one more row. */
  lemma NextRow<T>(rows: seq<T>, k: nat)
    requires k < |rows|
    ensures Rows(rows[..k + 1]) == Rows(rows[..k]) + {rows[k]}
    ensures Rows(rows[..k]) <= Rows(rows) && rows[k] in Rows(rows)
    ensures rows[k] in Rows(rows[..k]) ==> !NoRepeats(rows)
    ensures NoRepeats(rows[..k]) && rows[k] !in Rows(rows[..k]) ==> NoRepeats(rows[..k + 1])
  {
    assert rows[..k + 1] == rows[..k] + [rows[k]];
    if rows[k] in Rows(rows[..k]) {
      var j :| 0 <= j < k && rows[j] == rows[k];
    }
  }

  lemma AllRows<T>(rows: seq<T>)
    ensures rows[..|rows|] == rows
  {
  }

  lemma OneMoreInvitation(seen: set<Invitation>, row: Invitation)
    ensures InvitationBindings(seen + {row}) == InvitationBindings(seen) + {row.binding}
  {
  }

  lemma MoreInvitations(some: set<Invitation>, all: set<Invitation>)
    requires some <= all
    ensures InvitationBindings(some) <= InvitationBindings(all)
    ensures OneFingerprint(InvitationBindings(all)) ==> OneFingerprint(InvitationBindings(some))
  {
  }

  /******* Dictionaries over rows *******/

  ghost predicate IndexesInvitations(byId: map<Id, Invitation>, seen: set<Invitation>) {
    && (forall i :: i in seen ==> i.id in byId && byId[i.id] == i)
    && (forall k :: k in byId ==> byId[k] in seen && byId[k].id == k)
  }

  ghost predicate IndexesRevocations(byId: map<Id, Revocation>, seen: set<Revocation>) {
    && (forall r :: r in seen ==> r.invitationId in byId && byId[r.invitationId] == r)
    && (forall k :: k in byId ==> byId[k] in seen && byId[k].invitationId == k)
  }

  ghost predicate Remembers(bindings: map<Version, Binding>, seen: set<Binding>) {
    && (forall b :: b in seen ==> b.version in bindings && bindings[b.version] == b)
    && (forall v :: v in bindings ==> bindings[v] in seen && bindings[v].version == v)
  }

  /** setdefault on the binding of a version, then compare. */
  method Remember(bindings: map<Version, Binding>, b: Binding, ghost seen: set<Binding>)
    returns (ok: bool, updated: map<Version, Binding>)
    requires Remembers(bindings, seen)
    ensures ok <==> OneFingerprint(seen + {b})
    ensures ok ==> Remembers(updated, seen + {b})
  {
    updated := if b.version in bindings then bindings else bindings[b.version := b];
    ok := updated[b.version] == b;
    if !ok {
      assert bindings[b.version] in seen + {b} && b in seen + {b};
    }
  }

  ghost predicate HoldsDigests(digests: set<Id>, seen: set<Invitation>) {
    && (forall i :: i in seen ==> i.tokenDigest in digests)
    && (forall d :: d in digests ==> exists i :: i in seen && i.tokenDigest == d)
  }

  /** Refuses a repeated identity or digest. */
  method Admit(row: Invitation, byId: map<Id, Invitation>, digests: set<Id>, ghost seen: set<Invitation>)
    returns (ok: bool, byId': map<Id, Invitation>, digests': set<Id>)
    requires IndexesInvitations(byId, seen) && HoldsDigests(digests, seen) && UniqueInvitations(seen)
    ensures ok <==> row !in seen && UniqueInvitations(seen + {row})
    ensures ok ==> IndexesInvitations(byId', seen + {row}) && HoldsDigests(digests', seen + {row})
  {
    ok := row.id !in byId && row.tokenDigest !in digests;
    byId', digests' := byId[row.id := row], digests + {row.tokenDigest};
    if !ok {
      ghost var other :| other in seen && (other.id == row.id || other.tokenDigest == row.tokenDigest);
      assert other in seen + {row} && row in seen + {row};
    }
  }

  method ScanInvitations(rows: seq<Invitation>)
    returns (ok: bool, byId: map<Id, Invitation>, bindings: map<Version, Binding>)
    ensures ok <==> NoRepeats(rows) && UniqueInvitations(Rows(rows)) && OneFingerprint(InvitationBindings(Rows(rows)))
    ensures ok ==> IndexesInvitations(byId, Rows(rows)) && Remembers(bindings, InvitationBindings(Rows(rows)))
  {
    byId, bindings := map[], map[];
    var digests: set<Id> := {};
    assert InvitationBindings({}) == {} && OneFingerprint({});
    assert IndexesInvitations(byId, {}) && HoldsDigests(digests, {});
    hide InvitationBindings, OneFingerprint, IndexesInvitations, HoldsDigests;
    for k := 0 to |rows|
      invariant NoRepeats(rows[..k]) && UniqueInvitations(Rows(rows[..k]))
      invariant IndexesInvitations(byId, Rows(rows[..k])) && HoldsDigests(digests, Rows(rows[..k]))
      invariant OneFingerprint(InvitationBindings(Rows(rows[..k])))
      invariant Remembers(bindings, InvitationBindings(Rows(rows[..k])))
    {
      ghost var seen := Rows(rows[..k]);
      NextRow(rows, k);
      ok, byId, digests := Admit(rows[k], byId, digests, seen);
      if !ok {
        return;
      }
      ok, bindings := Remember(bindings, rows[k].binding, InvitationBindings(seen));
      OneMoreInvitation(seen, rows[k]);
      if !ok {
        MoreInvitations(seen + {rows[k]}, Rows(rows));
        return;
      }
    }
    AllRows(rows);
    ok := true;
  }

  method ScanRevocations(rows: seq<Revocation>, byId: map<Id, Invitation>, ghost invitations: set<Invitation>)
    returns (ok: bool, revocationOf: map<Id, Revocation>)
    requires IndexesInvitations(byId, invitations)
    ensures ok <==> NoRepeats(rows) && RevocationsStored(invitations, Rows(rows))
    ensures ok ==> IndexesRevocations(revocationOf, Rows(rows))
  {
    revocationOf := map[];
    ghost var seen := {};
    for k := 0 to |rows|
      invariant seen == Rows(rows[..k]) && NoRepeats(rows[..k]) && RevocationsStored(invitations, seen)
      invariant IndexesRevocations(revocationOf, seen)
    {
      var row := rows[k];
      NextRow(rows, k);
      if row.invitationId in revocationOf {
        assert revocationOf[row.invitationId] in Rows(rows);
        return false, revocationOf;
      }
      if row.invitationId !in byId {
        return false, revocationOf;
      }
      if row.revokedAt < byId[row.invitationId].issuedAt {
        return false, revocationOf;
      }
      revocationOf := revocationOf[row.invitationId := row];
      seen := seen + {row};
    }
    AllRows(rows);
    ok := true;
  }

  /******* Audit events *******/

  datatype Kind = Creating | Revoking

  predicate OfKind(kind: Kind, e: Event) {
    if kind == Creating then IsCreation(e) else IsRevoking(e)
  }

  /** The events of one kind, listed under the invitation they name. */
  ghost predicate Groups(groups: map<Id, seq<Event>>, kind: Kind, seen: set<Event>) {
    && (forall e :: e in seen && OfKind(kind, e) ==>
          e.invitationId.Some? && e.invitationId.value in groups && e in groups[e.invitationId.value])
    && (forall k :: k in groups ==> groups[k] != [] && NoRepeats(groups[k]))
    && (forall k, e :: k in groups && e in groups[k] ==> e in seen && OfKind(kind, e) && e.invitationId == Some(k))
  }

  ghost predicate Addressed(kind: Kind, events: set<Event>) {
    forall e :: e in events && OfKind(kind, e) ==> e.invitationId.Some?
  }

  method Group(groups: map<Id, seq<Event>>, kind: Kind, row: Event, ghost seen: set<Event>)
    returns (ok: bool, updated: map<Id, seq<Event>>)
    requires Groups(groups, kind, seen) && row !in seen
    ensures ok <==> (OfKind(kind, row) ==> row.invitationId.Some?)
    ensures ok ==> Groups(updated, kind, seen + {row})
  {
    updated := groups;
    if !OfKind(kind, row) {
      return true, updated;
    }
    if row.invitationId.None? {
      return false, updated;
    }
    var k := row.invitationId.value;
    var listed := if k in groups then groups[k] else [];
    updated := groups[k := listed + [row]];
    ok := true;
  }

  ghost predicate HoldsKeys(ids: set<string>, sequences: set<int>, seen: set<Event>) {
    && (forall e :: e in seen ==> e.eventId in ids && e.sequence in sequences)
    && (forall k :: k in ids ==> exists e :: e in seen && e.eventId == k)
    && (forall k :: k in sequences ==> exists e :: e in seen && e.sequence == k)
  }

  /** Refuses a repeated event id or sequence. */
  method AdmitEvent(row: Event, ids: set<string>, sequences: set<int>, ghost seen: set<Event>)
    returns (ok: bool, ids': set<string>, sequences': set<int>)
    requires HoldsKeys(ids, sequences, seen) && UniqueEvents(seen)
    ensures ok <==> row !in seen && UniqueEvents(seen + {row})
    ensures ok ==> HoldsKeys(ids', sequences', seen + {row})
  {
    ok := row.eventId !in ids && row.sequence !in sequences;
    ids', sequences' := ids + {row.eventId}, sequences + {row.sequence};
    if !ok {
      ghost var other :| other in seen && (other.eventId == row.eventId || other.sequence == row.sequence);
      assert other in seen + {row} && row in seen + {row};
    }
  }

  ghost predicate NamesBindings(bindingOf: map<Id, Binding>, seen: set<Event>) {
    && (forall e :: e in seen && e.invitationId.Some? ==>
          e.invitationId.value in bindingOf && bindingOf[e.invitationId.value] == e.binding)
    && (forall k :: k in bindingOf ==> exists e :: e in seen && e.invitationId == Some(k))
  }

  /** The invitation an event names keeps one binding, and a fact that was not rejected
      names a stored invitation. */
  method Refer(row: Event, bindingOf: map<Id, Binding>, byId: map<Id, Invitation>,
               ghost invitations: set<Invitation>, ghost seen: set<Event>)
    returns (ok: bool, updated: map<Id, Binding>)
    requires NamesBindings(bindingOf, seen) && IndexesInvitations(byId, invitations)
    requires ReferencesAgree(invitations, seen)
    ensures ok <==> ReferencesAgree(invitations, seen + {row})
    ensures ok ==> NamesBindings(updated, seen + {row})
  {
    updated := bindingOf;
    if row.invitationId.None? {
      return true, updated;
    }
    var k := row.invitationId.value;
    updated := if k in bindingOf then bindingOf else bindingOf[k := row.binding];
    assert row in seen + {row};
    if updated[k] != row.binding {
      ghost var other :| other in seen && other.invitationId == Some(k);
      assert other in seen + {row} && SameTarget(other, row);
      return false, updated;
    }
    if k !in byId {
      ok := row.outcome == REJECTED;
      assert !Stores(invitations, k);
    } else {
      ok := row.binding == byId[k].binding;
      assert byId[k] in invitations && Stores(invitations, k);
    }
  }

  /** The conditions that one pass over the events decides. */
  ghost predicate EventsFit(invitations: set<Invitation>, earlier: set<Binding>, events: set<Event>) {
    && UniqueEvents(events)
    && OneFingerprint(earlier + EventBindings(events))
    && ReferencesAgree(invitations, events)
    && Addressed(Creating, events) && Addressed(Revoking, events)
  }

  lemma FewerEventsFit(invitations: set<Invitation>, earlier: set<Binding>, some: set<Event>, all: set<Event>)
    requires some <= all && EventsFit(invitations, earlier, all)
    ensures EventsFit(invitations, earlier, some)
  {
    assert EventBindings(some) <= EventBindings(all);
    assert forall e :: e in some ==> e in all;
  }

  lemma OneMoreEvent(seen: set<Event>, row: Event, earlier: set<Binding>)
    ensures earlier + EventBindings(seen + {row}) == earlier + EventBindings(seen) + {row.binding}
    ensures forall k :: Addressed(k, seen + {row}) <==> Addressed(k, seen) && (OfKind(k, row) ==> row.invitationId.Some?)
  {
    assert forall e :: e in seen + {row} <==> e in seen || e == row;
  }

  method ScanEvents(rows: seq<Event>, byId: map<Id, Invitation>, earlier: map<Version, Binding>,
                    ghost invitations: set<Invitation>, ghost remembered: set<Binding>)
    returns (ok: bool, bindings: map<Version, Binding>, creations: map<Id, seq<Event>>, revokings: map<Id, seq<Event>>)
    requires IndexesInvitations(byId, invitations) && Remembers(earlier, remembered) && OneFingerprint(remembered)
    ensures ok <==> NoRepeats(rows) && EventsFit(invitations, remembered, Rows(rows))
    ensures ok ==> Remembers(bindings, remembered + EventBindings(Rows(rows)))
    ensures ok ==> Groups(creations, Creating, Rows(rows)) && Groups(revokings, Revoking, Rows(rows))
  {
    bindings, creations, revokings := earlier, map[], map[];
    var ids: set<string>, sequences: set<int>, bindingOf: map<Id, Binding> := {}, {}, map[];
    ghost var seen: set<Event> := {};
    assert remembered + EventBindings({}) == remembered;
    assert EventsFit(invitations, remembered, {});
    assert NoRepeats(rows[..0]) && HoldsKeys(ids, sequences, {}) && NamesBindings(bindingOf, {});
    assert Groups(creations, Creating, {}) && Groups(revokings, Revoking, {});
    hide NoRepeats, EventsFit, Remembers, Groups, HoldsKeys, NamesBindings, IndexesInvitations, OneFingerprint,
         Addressed, UniqueEvents, ReferencesAgree, EventBindings, OfKind;
    for k := 0 to |rows|
      invariant seen == Rows(rows[..k]) && NoRepeats(rows[..k])
      invariant EventsFit(invitations, remembered, seen)
      invariant Remembers(bindings, remembered + EventBindings(seen))
      invariant HoldsKeys(ids, sequences, seen) && NamesBindings(bindingOf, seen)
      invariant Groups(creations, Creating, seen) && Groups(revokings, Revoking, seen)
    {
      NextRow(rows, k);
      ok, bindings, ids, sequences, bindingOf, creations, revokings := ScanEvent(rows[k], byId, bindings, ids,
        sequences, bindingOf, creations, revokings, invitations, remembered, seen);
      if !ok {
        if NoRepeats(rows) && EventsFit(invitations, remembered, Rows(rows)) {
          FewerEventsFit(invitations, remembered, seen + {rows[k]}, Rows(rows));
          assert false;
        }
        return;
      }
      seen := seen + {rows[k]};
    }
    AllRows(rows);
    ok := true;
  }

  /** One turn of the loop. */
  method ScanEvent(row: Event, byId: map<Id, Invitation>, bindings: map<Version, Binding>, ids: set<string>,
                   sequences: set<int>, bindingOf: map<Id, Binding>, creations: map<Id, seq<Event>>,
                   revokings: map<Id, seq<Event>>, ghost invitations: set<Invitation>,
                   ghost remembered: set<Binding>, ghost seen: set<Event>)
    returns (ok: bool, bindings': map<Version, Binding>, ids': set<string>, sequences': set<int>,
             bindingOf': map<Id, Binding>, creations': map<Id, seq<Event>>, revokings': map<Id, seq<Event>>)
    requires IndexesInvitations(byId, invitations) && EventsFit(invitations, remembered, seen)
    requires Remembers(bindings, remembered + EventBindings(seen))
    requires HoldsKeys(ids, sequences, seen) && NamesBindings(bindingOf, seen)
    requires Groups(creations, Creating, seen) && Groups(revokings, Revoking, seen)
    ensures ok <==> row !in seen && EventsFit(invitations, remembered, seen + {row})
    ensures ok ==> Remembers(bindings', remembered + EventBindings(seen + {row}))
    ensures ok ==> HoldsKeys(ids', sequences', seen + {row}) && NamesBindings(bindingOf', seen + {row})
    ensures ok ==> Groups(creations', Creating, seen + {row}) && Groups(revokings', Revoking, seen + {row})
  {
    hide Remembers, Groups, HoldsKeys, NamesBindings, IndexesInvitations, OneFingerprint,
         Addressed, UniqueEvents, ReferencesAgree, EventBindings, OfKind;
    bindings', bindingOf', creations', revokings' := bindings, bindingOf, creations, revokings;
    OneMoreEvent(seen, row, remembered);
    ok, ids', sequences' := AdmitEvent(row, ids, sequences, seen);
    if !ok {
      return;
    }
    ok, bindings' := Remember(bindings, row.binding, remembered + EventBindings(seen));
    if !ok {
      return;
    }
    ok, bindingOf' := Refer(row, bindingOf, byId, invitations, seen);
    if !ok {
      return;
    }
    ok, creations' := Group(creations, Creating, row, seen);
    if !ok {
      return;
    }
    ok, revokings' := Group(revokings, Revoking, row, seen);
  }
}
