/** Resolving a token digest against the durable tables, and how that compares with the
    reference store. */
module LedgerReader {
  import opened Wrappers
  import opened LedgerRecords
  import L = LedgerRules
  import S = StoreRules
  import H = StoreHistory

  datatype Tables = Tables(invitations: seq<Invitation>, revocations: seq<Revocation>, decisions: seq<S.Decision>)

  datatype ReadError = Unavailable | Revoked | Consumed | Expired

  /******* What a query selects *******/

  function Digested(digest: Id): Invitation -> bool {
    (i: Invitation) => i.tokenDigest == digest
  }

  function Named(id: Id): Invitation -> bool {
    (i: Invitation) => i.id == id
  }

  function Targets(id: Id): Revocation -> bool {
    (r: Revocation) => r.invitationId == id
  }

  function Deciding(v: Version): S.Decision -> bool {
    (d: S.Decision) => d.binding.version == v
  }

  ghost predicate AtMostOne<T>(rows: seq<T>, pick: T -> bool) {
    forall j, k :: 0 <= j < k < |rows| && pick(rows[j]) ==> !pick(rows[k])
  }

  /** A query that more than one row answers means corruption. */
  method Select<T>(rows: seq<T>, pick: T -> bool) returns (selected: Result<Option<T>, ReadError>)
    ensures selected.Err? <==> !AtMostOne(rows, pick)
    ensures selected.Err? ==> selected.error == Unavailable
    ensures selected == Ok(None) ==> forall x :: x in rows ==> !pick(x)
    ensures selected.Ok? && selected.value.Some? ==> selected.value.value in rows && pick(selected.value.value)
    ensures selected.Ok? && selected.value.Some? ==> forall x :: x in rows && pick(x) ==> x == selected.value.value
  {
    var picked := Picked(rows, pick);
    PickedCounts(rows, pick);
    if |picked| > 1 {
      return Err(Unavailable);
    }
    forall x
      ensures x in picked <==> x in rows && pick(x)
    {
      PickedAre(rows, pick, x);
    }
    if picked == [] {
      return Ok(None);
    }
    PickedAre(rows, pick, picked[0]);
    assert forall x :: x in picked ==> x == picked[0];
    selected := Ok(Some(picked[0]));
  }

  lemma {:induction false} PickedCounts<T>(rows: seq<T>, pick: T -> bool)
    ensures |Picked(rows, pick)| <= 1 <==> AtMostOne(rows, pick)
  {
    if rows != [] {
      var last := |rows| - 1;
      PickedCounts(rows[..last], pick);
      PickedNone(rows[..last], pick);
      if AtMostOne(rows[..last], pick) && (!pick(rows[last]) || forall x :: x in rows[..last] ==> !pick(x)) {
        forall j, k | 0 <= j < k < |rows| && pick(rows[j])
          ensures !pick(rows[k])
        {
          assert rows[..last][j] == rows[j] && rows[j] in rows[..last];
          assert k < last ==> rows[..last][k] == rows[k];
        }
      }
      if AtMostOne(rows, pick) {
        assert forall j :: 0 <= j < last ==> rows[..last][j] == rows[j];
      }
    }
  }

  lemma PickedNone<T>(rows: seq<T>, pick: T -> bool)
    ensures Picked(rows, pick) == [] <==> forall x :: x in rows ==> !pick(x)
  {
    forall x
      ensures x in Picked(rows, pick) <==> x in rows && pick(x)
    {
      PickedAre(rows, pick, x);
    }
    assert Picked(rows, pick) != [] ==> Picked(rows, pick)[0] in Picked(rows, pick);
  }

  /******* What reads back *******/

  /** Supported digests, and one fingerprint for each contract version. */
  ghost predicate InvitationsReadable(t: Tables) {
    && (forall i :: i in t.invitations ==> i.digestVersion == SHA256_V1)
    && (forall i, j :: i in t.invitations && j in t.invitations && i.binding.version == j.binding.version ==> i.binding == j.binding)
  }

  predicate RevocationFollows(i: Invitation, r: Revocation) {
    i.issuedAt <= r.revokedAt
  }

  /** The decision was taken on its own stored invitation, after issue, before expiry and before
      any revocation. */
  ghost predicate DecisionReadable(t: Tables, d: S.Decision) {
    && AtMostOne(t.invitations, Named(d.invitationId)) && AtMostOne(t.revocations, Targets(d.invitationId))
    && exists i :: i in t.invitations && DecisionFits(t, d, i)
  }

  ghost predicate DecisionFits(t: Tables, d: S.Decision, i: Invitation) {
    && H.ReaderAccepts(i, d)
    && forall r :: r in t.revocations && r.invitationId == i.id ==> RevocationFollows(i, r) && d.decidedAt <= r.revokedAt
  }

  ghost predicate HasDigest(t: Tables, digest: Id) {
    exists i :: i in t.invitations && i.tokenDigest == digest
  }

  ghost predicate IsRevoked(t: Tables, i: Invitation) {
    exists r :: r in t.revocations && r.invitationId == i.id
  }

  ghost predicate IsDecided(t: Tables, v: Version) {
    exists d :: d in t.decisions && d.binding.version == v
  }

  /** The matched invitation and its contract version read back without contradiction. */
  ghost predicate Sound(t: Tables, i: Invitation) {
    && AtMostOne(t.revocations, Targets(i.id)) && AtMostOne(t.decisions, Deciding(i.binding.version))
    && (forall r :: r in t.revocations && r.invitationId == i.id ==> RevocationFollows(i, r))
    && (forall d :: d in t.decisions && d.binding.version == i.binding.version ==> DecisionReadable(t, d) && d.binding == i.binding)
  }

  /** Revoked before consumed before expired; anything contradictory, and anything found more
      than once, makes the ledger unavailable. */
  ghost predicate Answers(t: Tables, digest: Id, now: int, answer: Result<Option<Invitation>, ReadError>) {
    if !InvitationsReadable(t) || !AtMostOne(t.invitations, Digested(digest)) then answer == Err(Unavailable)
    else if !HasDigest(t, digest) then answer == Ok(None)
    else exists i :: i in t.invitations && i.tokenDigest == digest && answer == AnswerFor(t, i, now)
  }

  ghost function AnswerFor(t: Tables, i: Invitation, now: int): Result<Option<Invitation>, ReadError> {
    if !Sound(t, i) then Err(Unavailable)
    else if IsRevoked(t, i) then Err(ReadError.Revoked)
    else if IsDecided(t, i.binding.version) then Err(Consumed)
    else if now >= i.expiresAt then Err(Expired)
    else Ok(Some(i))
  }

  /******* What the answers mean *******/

  /** An invitation is answered as active exactly when all stored digests are of the supported kind
      and no contract version has two bindings, and it alone is stored under the digest, unexpired,
      never revoked and with its contract version undecided. */
  lemma ActiveExactly(t: Tables, digest: Id, now: int, i: Invitation)
    ensures Answers(t, digest, now, Ok(Some(i))) <==>
            && (forall j :: j in t.invitations ==> j.digestVersion == SHA256_V1)
            && (forall j, k :: j in t.invitations && k in t.invitations && j.binding.version == k.binding.version ==>
                  j.binding == k.binding)
            && AtMostOne(t.invitations, Digested(digest))
            && i in t.invitations && i.tokenDigest == digest && now < i.expiresAt
            && (forall r :: r in t.revocations ==> r.invitationId != i.id)
            && (forall d :: d in t.decisions ==> d.binding.version != i.binding.version)
  {
    hide DecisionReadable;
    assert (forall r :: r in t.revocations ==> r.invitationId != i.id) ==> AtMostOne(t.revocations, Targets(i.id));
    assert (forall d :: d in t.decisions ==> d.binding.version != i.binding.version) ==>
        AtMostOne(t.decisions, Deciding(i.binding.version));
    hide AtMostOne;
  }

  /** Nothing is found exactly when the stored digests and bindings are as they should be and no
      digest is this one. */
  lemma NothingExactly(t: Tables, digest: Id, now: int)
    ensures Answers(t, digest, now, Ok(None)) <==>
            && (forall j :: j in t.invitations ==> j.digestVersion == SHA256_V1 && j.tokenDigest != digest)
            && (forall j, k :: j in t.invitations && k in t.invitations && j.binding.version == k.binding.version ==>
                  j.binding == k.binding)
  {
    hide Sound;
    assert (forall i :: i in t.invitations ==> i.tokenDigest != digest) ==> AtMostOne(t.invitations, Digested(digest));
    hide AtMostOne;
  }

  /** The one answer that rows without contradiction call for. */
  predicate InTurn(t: Tables, i: Invitation, now: int, answer: Result<Option<Invitation>, ReadError>) {
    if exists r :: r in t.revocations && r.invitationId == i.id then answer == Err(ReadError.Revoked)
    else if exists d :: d in t.decisions && d.binding.version == i.binding.version then answer == Err(Consumed)
    else if i.expiresAt <= now then answer == Err(Expired)
    else answer == Ok(Some(i))
  }

  /** The decision was taken on the one stored invitation of its contract and organization, while
      that was in force. */
  ghost predicate TakenInForce(t: Tables, d: S.Decision) {
    && AtMostOne(t.invitations, Named(d.invitationId)) && AtMostOne(t.revocations, Targets(d.invitationId))
    && exists i :: i in t.invitations && InForce(t, d, i)
  }

  ghost predicate InForce(t: Tables, d: S.Decision, i: Invitation) {
    && i.id == d.invitationId && i.binding == d.binding && i.organization == d.reviewer.organization
    && i.issuedAt <= d.decidedAt < i.expiresAt
    && forall r :: r in t.revocations && r.invitationId == i.id ==> i.issuedAt <= r.revokedAt && d.decidedAt <= r.revokedAt
  }

  /** For a stored digest every answer but Unavailable is the one in turn: a revoked invitation
      is never active, consumed or expired, nor a consumed one expired. And it vouches for the
      rows: at most one of each kind, no revocation before issue, and the decision taken in force. */
  lemma AnswersInTurn(t: Tables, digest: Id, now: int, answer: Result<Option<Invitation>, ReadError>, i: Invitation)
    requires Answers(t, digest, now, answer) && answer != Err(Unavailable) && i in t.invitations && i.tokenDigest == digest
    ensures InTurn(t, i, now, answer)
    ensures AtMostOne(t.invitations, Digested(digest)) && forall j :: j in t.invitations ==> j.digestVersion == SHA256_V1
    ensures AtMostOne(t.revocations, Targets(i.id)) && AtMostOne(t.decisions, Deciding(i.binding.version))
    ensures forall r :: r in t.revocations && r.invitationId == i.id ==> i.issuedAt <= r.revokedAt
    ensures forall d :: d in t.decisions && d.binding.version == i.binding.version ==> d.binding == i.binding && TakenInForce(t, d)
  {
    var j :| j in t.invitations && j.tokenDigest == digest && answer == AnswerFor(t, j, now);
    assert i == j;
    hide AtMostOne;
    forall d | d in t.decisions && d.binding.version == i.binding.version
      ensures TakenInForce(t, d)
    {
      var own :| own in t.invitations && DecisionFits(t, d, own);
      assert InForce(t, d, own);
    }
  }

  /** The tables hold, without repeats, the rows of a ledger that passes validation, and decisions
      taken in force, one for each contract version. */
  ghost predicate Accepted(t: Tables, l: L.Ledger) {
    && L.Coherent(l) && L.RowsValid(l)
    && (forall i :: i in t.invitations <==> i in l.invitations) && (forall r :: r in t.revocations <==> r in l.revocations)
    && (forall j, k :: 0 <= j < k < |t.invitations| ==> t.invitations[j] != t.invitations[k])
    && (forall j, k :: 0 <= j < k < |t.revocations| ==> t.revocations[j] != t.revocations[k])
    && (forall j, k :: 0 <= j < k < |t.decisions| ==> t.decisions[j].binding.version != t.decisions[k].binding.version)
    && (forall d :: d in t.decisions ==> TakenInForce(t, d))
  }

  /** Row identities, and revocations that follow issue. */
  lemma AcceptedRows(t: Tables, l: L.Ledger)
    requires Accepted(t, l)
    ensures forall i, j :: i in t.invitations && j in t.invitations && (i.id == j.id || i.tokenDigest == j.tokenDigest) ==> i == j
    ensures forall r, s :: r in t.revocations && s in t.revocations && r.invitationId == s.invitationId ==> r == s
    ensures forall r, i :: r in t.revocations && i in t.invitations && r.invitationId == i.id ==> RevocationFollows(i, r)
    ensures forall i :: i in t.invitations ==> i.digestVersion == SHA256_V1
  {
    assert L.UniqueInvitations(l.invitations) && L.RevocationsStored(l.invitations, l.revocations);
    hide L.Coherent, TakenInForce;
  }

  lemma OnlyOne<T>(rows: seq<T>, pick: T -> bool)
    requires forall j, k :: 0 <= j < k < |rows| ==> rows[j] != rows[k]
    requires forall x, y :: x in rows && y in rows && pick(x) && pick(y) ==> x == y
    ensures AtMostOne(rows, pick)
  {
  }

  /** So no query finds two rows. */
  lemma AcceptedQueries(t: Tables, l: L.Ledger, id: Id, digest: Id, v: Version)
    requires Accepted(t, l)
    ensures AtMostOne(t.invitations, Named(id)) && AtMostOne(t.invitations, Digested(digest))
    ensures AtMostOne(t.revocations, Targets(id)) && AtMostOne(t.decisions, Deciding(v))
  {
    AcceptedRows(t, l);
    assert AtMostOne(t.decisions, Deciding(v)) by { hide L.Coherent, L.RowsValid, TakenInForce; }
    hide L.Coherent, L.RowsValid, TakenInForce, AtMostOne;
    OnlyOne(t.invitations, Named(id));
    OnlyOne(t.invitations, Digested(digest));
    OnlyOne(t.revocations, Targets(id));
  }

  lemma AcceptedDecision(t: Tables, l: L.Ledger, i: Invitation, d: S.Decision)
    requires Accepted(t, l) && i in t.invitations && d in t.decisions && d.binding.version == i.binding.version
    ensures DecisionReadable(t, d) && d.binding == i.binding
  {
    hide L.Coherent, L.RowsValid, AtMostOne;
    assert TakenInForce(t, d);
    hide Accepted;
    OneBinding(t, l);
    AcceptedRows(t, l);
    AcceptedQueries(t, l, d.invitationId, 0, i.binding.version);
    var own :| own in t.invitations && InForce(t, d, own);
    assert DecisionFits(t, d, own);
  }

  lemma AcceptedIsSound(t: Tables, l: L.Ledger, i: Invitation)
    requires Accepted(t, l) && i in t.invitations
    ensures InvitationsReadable(t) && AtMostOne(t.invitations, Digested(i.tokenDigest)) && Sound(t, i)
  {
    hide Accepted, DecisionReadable, AtMostOne;
    OneBinding(t, l);
    AcceptedRows(t, l);
    AcceptedQueries(t, l, i.id, i.tokenDigest, i.binding.version);
    forall d | d in t.decisions && d.binding.version == i.binding.version
      ensures DecisionReadable(t, d) && d.binding == i.binding
    {
      AcceptedDecision(t, l, i, d);
    }
  }

  lemma OneBinding(t: Tables, l: L.Ledger)
    requires Accepted(t, l)
    ensures forall i, j :: i in t.invitations && j in t.invitations && i.binding.version == j.binding.version ==> i.binding == j.binding
  {
    assert L.OneFingerprint(L.InvitationBindings(l.invitations) + L.EventBindings(l.events));
    hide L.Coherent, L.RowsValid;
    forall i, j | i in t.invitations && j in t.invitations && i.binding.version == j.binding.version
      ensures i.binding == j.binding
    {
      assert i.binding in L.InvitationBindings(l.invitations) && j.binding in L.InvitationBindings(l.invitations);
    }
  }

  lemma SoundInTurn(t: Tables, i: Invitation, now: int, answer: Result<Option<Invitation>, ReadError>)
    requires Sound(t, i)
    ensures answer == AnswerFor(t, i, now) <==> InTurn(t, i, now, answer)
  {
    hide Sound;
  }

  /** What the validator accepts the reader never calls unavailable: it gives the answer in turn,
      whichever invitation a digest names. */
  lemma AcceptedReadsBack(t: Tables, l: L.Ledger, i: Invitation, now: int, answer: Result<Option<Invitation>, ReadError>)
    requires Accepted(t, l) && i in t.invitations
    ensures Answers(t, i.tokenDigest, now, answer) <==> InTurn(t, i, now, answer)
  {
    hide Accepted, InvitationsReadable, AtMostOne, Sound, AnswerFor, InTurn;
    AcceptedIsSound(t, l, i);
    AcceptedRows(t, l);
    assert HasDigest(t, i.tokenDigest);
    assert answer == AnswerFor(t, i, now) <==> InTurn(t, i, now, answer) by {
      SoundInTurn(t, i, now, answer);
    }
  }

  /******* Reading rows *******/

  class Snapshot {
    const invitations: seq<Invitation>
    const revocations: seq<Revocation>
    const decisions: seq<S.Decision>

    constructor (invitations: seq<Invitation>, revocations: seq<Revocation>, decisions: seq<S.Decision>)
      ensures this.invitations == invitations && this.revocations == revocations && this.decisions == decisions
    {
      this.invitations, this.revocations, this.decisions := invitations, revocations, decisions;
    }

    ghost function State(): Tables {
      Tables(invitations, revocations, decisions)
    }

    /** One pass over digest versions, one remembering bindings. */
    method ReadInvitations() returns (readable: bool)
      ensures readable <==> InvitationsReadable(State())
    {
      readable := true;
      for k := 0 to |invitations|
        invariant readable <==> forall j :: 0 <= j < k ==> invitations[j].digestVersion == SHA256_V1
      {
        if invitations[k].digestVersion != SHA256_V1 {
          readable := false;
        }
      }
      if !readable {
        return;
      }
      var bindings: map<Version, Binding> := map[];
      for k := 0 to |invitations|
        invariant forall j :: 0 <= j < k ==> invitations[j].binding.version in bindings
        invariant forall j :: 0 <= j < k ==> bindings[invitations[j].binding.version] == invitations[j].binding
        invariant forall v :: v in bindings ==> exists j :: 0 <= j < k && invitations[j].binding == bindings[v] && bindings[v].version == v
      {
        var b := invitations[k].binding;
        if b.version !in bindings {
          bindings := bindings[b.version := b];
        }
        if bindings[b.version] != b {
          return false;
        }
      }
    }

    /** The one decision of a contract version, rechecked against its own invitation and that
        one's revocation. */
    method ReadDecision(v: Version) returns (decision: Result<Option<S.Decision>, ReadError>)
      ensures decision.Err? <==>
        || !AtMostOne(decisions, Deciding(v))
        || exists d :: d in decisions && d.binding.version == v && !DecisionReadable(State(), d)
      ensures decision.Err? ==> decision.error == Unavailable
      ensures decision == Ok(None) ==> forall d :: d in decisions ==> d.binding.version != v
      ensures decision.Ok? && decision.value.Some? ==>
        decision.value.value in decisions && forall d :: d in decisions && d.binding.version == v <==> d == decision.value.value
    {
      decision := Select(decisions, Deciding(v));
      if decision.Ok? && decision.value.Some? {
        var readable := DecisionReadsBack(decision.value.value);
        hide DecisionReadable, AtMostOne;
        if !readable {
          decision := Err(Unavailable);
        }
      }
    }

    method DecisionReadsBack(d: S.Decision) returns (readable: bool)
      ensures readable <==> DecisionReadable(State(), d)
    {
      var i := Select(invitations, Named(d.invitationId));
      if i.Err? || i.value.None? || !H.ReaderAccepts(i.value.value, d) {
        return false;
      }
      var r := Select(revocations, Targets(i.value.value.id));
      hide AtMostOne;
      readable := r.Ok? && (r.value.None? ||
                            (RevocationFollows(i.value.value, r.value.value) && d.decidedAt <= r.value.value.revokedAt));
      assert readable ==> DecisionFits(State(), d, i.value.value);
    }

    method ResolveInvitation(digest: Id, now: int) returns (answer: Result<Option<Invitation>, ReadError>)
      ensures Answers(State(), digest, now, answer)
    {
      var readable := ReadInvitations();
      if !readable {
        return Err(Unavailable);
      }
      hide InvitationsReadable, AnswerFor, AtMostOne;
      var matched := Select(invitations, Digested(digest));
      if matched.Err? {
        return Err(Unavailable);
      }
      if matched.value.None? {
        return Ok(None);
      }
      answer := Classify(matched.value.value, now);
    }

    method Classify(i: Invitation, now: int) returns (answer: Result<Option<Invitation>, ReadError>)
      ensures answer == AnswerFor(State(), i, now)
    {
      hide DecisionReadable, AtMostOne;
      var revocation := Select(revocations, Targets(i.id));
      if revocation.Err? || (revocation.value.Some? && !RevocationFollows(i, revocation.value.value)) {
        return Err(Unavailable);
      }
      var decision := ReadDecision(i.binding.version);
      if decision.Err? || (decision.value.Some? && decision.value.value.binding != i.binding) {
        return Err(Unavailable);
      }
      assert Sound(State(), i);
      if revocation.value.Some? {
        return Err(ReadError.Revoked);
      }
      if decision.value.Some? {
        return Err(Consumed);
      }
      answer := if now >= i.expiresAt then Err(Expired) else Ok(Some(i));
    }
  }

  /******* Against the reference store *******/

  /** Keys and uniqueness constraints keep rows apart. */
  ghost predicate Keyed(t: Tables) {
    && (forall j, k :: 0 <= j < k < |t.invitations| ==> t.invitations[j].id != t.invitations[k].id)
    && (forall j, k :: 0 <= j < k < |t.decisions| ==> t.decisions[j].binding.version != t.decisions[k].binding.version)
  }

  /** The tables hold what the store holds, row by row, and no revocation. */
  ghost predicate SameFacts(t: Tables, s: S.StoreState) {
    && Keyed(t) && t.revocations == []
    && (forall i :: i in t.invitations <==> i.id in s.invitations && s.invitations[i.id] == i)
    && (forall d :: d in t.decisions <==> d.confirmationId in s.decisions && s.decisions[d.confirmationId] == d)
    && (forall i :: i in t.invitations ==> i.digestVersion == SHA256_V1)
  }

  function StoreError(answer: Result<Option<Invitation>, S.StoreError>): Result<Option<Invitation>, ReadError> {
    match answer
    case Ok(i) => Ok(i)
    case Err(error) => Err(if error.Consumed? then Consumed else if error.Expired? then Expired else Unavailable)
  }

  /** The decision of the contract version was taken before the invitation it answers was issued. */
  ghost predicate DecidedEarly(s: S.StoreState, b: Binding) {
    && b in s.decisionOf
    && s.decisionOf[b].invitationId in s.invitations
    && s.decisionOf[b].decidedAt < s.invitations[s.decisionOf[b].invitationId].issuedAt
  }

  lemma StoredDecision(t: Tables, s: S.StoreState, d: S.Decision)
    requires S.Consistent(s) && SameFacts(t, s) && d in t.decisions
    ensures d.binding in s.decisionOf && s.decisionOf[d.binding] == d
    ensures d.invitationId in s.invitations && s.invitations[d.invitationId] in t.invitations
    ensures s.invitations[d.invitationId].id == d.invitationId && s.invitations[d.invitationId].binding == d.binding
    ensures DecisionReadable(t, d) <==> s.invitations[d.invitationId].issuedAt <= d.decidedAt
  {
    hide S.OperationsIndexed, S.BindingsRemembered;
    assert S.DecisionFounded(s.invitations, s.decisions[d.confirmationId]);
    var i := s.invitations[d.invitationId];
    assert i.id == d.invitationId && i in t.invitations;
    hide S.Consistent;
    assert DecisionFits(t, d, i) <==> i.issuedAt <= d.decidedAt;
    forall j | j in t.invitations && DecisionFits(t, d, j)
      ensures j == i
    {
      assert j.id == d.invitationId;
    }
  }

  lemma SameVersionSameBinding(t: Tables, s: S.StoreState, i: Invitation, d: S.Decision)
    requires S.Consistent(s) && SameFacts(t, s) && i in t.invitations && d in t.decisions
    requires d.binding.version == i.binding.version
    ensures d.binding == i.binding
  {
    StoredDecision(t, s, d);
    var id := d.invitationId;
    assert s.bindings[s.invitations[id].binding.version] == s.invitations[id].binding;
    assert s.bindings[s.invitations[i.id].binding.version] == s.invitations[i.id].binding;
    hide S.DecisionsIndexed, S.OperationsIndexed, S.DecisionFounded;
  }

  lemma DecisionsOfInvitation(t: Tables, s: S.StoreState, i: Invitation)
    requires S.Consistent(s) && SameFacts(t, s) && i in t.invitations
    ensures forall d :: d in t.decisions && d.binding.version == i.binding.version ==>
              d.binding == i.binding && (DecisionReadable(t, d) <==> !DecidedEarly(s, i.binding))
    ensures IsDecided(t, i.binding.version) <==> i.binding in s.decisionOf
  {
    hide DecisionReadable;
    forall d | d in t.decisions && d.binding.version == i.binding.version
      ensures d.binding == i.binding && d.binding in s.decisionOf && (DecisionReadable(t, d) <==> !DecidedEarly(s, i.binding))
    {
      SameVersionSameBinding(t, s, i, d);
      StoredDecision(t, s, d);
    }
    hide S.OperationsIndexed, S.BindingsRemembered, S.InvitationsIndexed, DecidedEarly;
    if i.binding in s.decisionOf {
      var d := s.decisionOf[i.binding];
      assert d in t.decisions && d.binding == i.binding;
    }
  }

  /** For a stored digest the reader gives the store's answer, unless the decision is early: then
      the store calls the invitation consumed and the ledger is unavailable. */
  lemma ReaderAgreesUnlessEarly(t: Tables, s: S.StoreState, i: Invitation, now: int)
    requires S.Consistent(s) && SameFacts(t, s) && i in t.invitations
    ensures AnswerFor(t, i, now) == if DecidedEarly(s, i.binding) then Err(Unavailable)
                                    else StoreError(S.ResolveAnswer(s, i.tokenDigest, now))
    ensures DecidedEarly(s, i.binding) ==> S.ResolveAnswer(s, i.tokenDigest, now) == Err(S.Consumed)
  {
    hide DecisionReadable, DecidedEarly, S.Consistent, S.InvitationFor;
    StoredInvitation(s, i);
    DecisionsOfInvitation(t, s, i);
    assert AtMostOne(t.decisions, Deciding(i.binding.version));
    assert DecidedEarly(s, i.binding) ==> i.binding in s.decisionOf by {
      EarlyIsDecided(s, i.binding);
    }
  }

  lemma StoredInvitation(s: S.StoreState, i: Invitation)
    requires S.Consistent(s) && i.id in s.invitations && s.invitations[i.id] == i
    ensures S.InvitationFor(s, i.tokenDigest) == Some(i)
  {
    assert S.InvitationsIndexed(s.invitations, s.idByDigest);
    hide S.Consistent;
  }

  lemma EarlyIsDecided(s: S.StoreState, b: Binding)
    ensures DecidedEarly(s, b) ==> b in s.decisionOf
  {
  }
}
