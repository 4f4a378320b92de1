/** Publication of one Evidence Pack directory, marker last, and its verification. */
module EvidencePack {
  import opened Wrappers

  type Id = int

  datatype Payload = Payload(contract: Id, confirmation: Id, rest: Id)

  datatype Artifact = CONTRACT | CONFIRMATION | EVIDENCE | PACKET

  datatype Entry = File(artifact: Artifact) | MANIFEST | MARKER

  /** Serializations are injective, and a digest stands for the bytes it is of. */
  datatype Bytes =
    | ContractBytes(contract: Id)
    | ConfirmationBytes(confirmation: Id)
    | EvidenceBytes(payload: Payload)
    | PacketBytes(rendered: Payload)
    | ManifestBytes(attempt: Id, digests: Digests)
    | NoBytes
    | OtherBytes(content: Id)

  datatype Digests = Digests(contract: Bytes, confirmation: Bytes, evidence: Bytes, packet: Bytes)

  type Files = map<Entry, Bytes>

  datatype Publication = Publication(attempt: Id, manifest: Bytes, packet: Bytes)

  const ARTIFACTS: seq<Artifact> := [CONTRACT, CONFIRMATION, EVIDENCE, PACKET]

  /** The order in which entries appear in the final directory. */
  const ORDER: seq<Entry> := [File(CONTRACT), File(CONFIRMATION), File(EVIDENCE), File(PACKET), MANIFEST, MARKER]

  const ENTRIES: set<Entry> := {File(CONTRACT), File(CONFIRMATION), File(EVIDENCE), File(PACKET), MANIFEST, MARKER}

  function ArtifactBytes(p: Payload, a: Artifact): Bytes {
    match a
    case CONTRACT => ContractBytes(p.contract)
    case CONFIRMATION => ConfirmationBytes(p.confirmation)
    case EVIDENCE => EvidenceBytes(p)
    case PACKET => PacketBytes(p)
  }

  function DigestOf(d: Digests, a: Artifact): Bytes {
    match a
    case CONTRACT => d.contract
    case CONFIRMATION => d.confirmation
    case EVIDENCE => d.evidence
    case PACKET => d.packet
  }

  function ManifestFor(attempt: Id, p: Payload): Bytes {
    ManifestBytes(attempt, Digests(ContractBytes(p.contract), ConfirmationBytes(p.confirmation), EvidenceBytes(p), PacketBytes(p)))
  }

  function Content(attempt: Id, p: Payload, e: Entry): Bytes {
    match e
    case File(a) => ArtifactBytes(p, a)
    case MANIFEST => ManifestFor(attempt, p)
    case MARKER => NoBytes
  }

  /** The directory with the first n entries in place. */
  function Placed(attempt: Id, p: Payload, n: nat): Files
    requires n <= |ORDER|
  {
    map e | e in ORDER[..n] :: Content(attempt, p, e)
  }

  function RecordFor(attempt: Id, p: Payload): Publication {
    Publication(attempt, ManifestFor(attempt, p), PacketBytes(p))
  }

  /** The three JSON artifacts are canonical, and the evidence embeds the other two. */
  predicate Bound(contract: Bytes, confirmation: Bytes, evidence: Bytes) {
    && evidence.EvidenceBytes?
    && contract == ContractBytes(evidence.payload.contract)
    && confirmation == ConfirmationBytes(evidence.payload.confirmation)
  }

  /** What a reader accepts: exactly the six entries, a manifest for the attempt, and artifacts
      that match it and each other. */
  predicate Acceptable(attempt: Id, files: Files) {
    && files.Keys == ENTRIES
    && files[MANIFEST].ManifestBytes? && files[MANIFEST].attempt == attempt
    && (forall a :: File(a) in files && files[File(a)] == DigestOf(files[MANIFEST].digests, a))
    && Bound(files[File(CONTRACT)], files[File(CONFIRMATION)], files[File(EVIDENCE)])
  }

  /** The six entries of one payload, with whatever packet. */
  predicate IsPack(attempt: Id, p: Payload, packet: Bytes, files: Files) {
    && files.Keys == ENTRIES
    && files[MANIFEST] ==
         ManifestBytes(attempt, Digests(ContractBytes(p.contract), ConfirmationBytes(p.confirmation), EvidenceBytes(p), packet))
    && files[File(CONTRACT)] == ContractBytes(p.contract)
    && files[File(CONFIRMATION)] == ConfirmationBytes(p.confirmation)
    && files[File(EVIDENCE)] == EvidenceBytes(p)
    && files[File(PACKET)] == packet
  }

  /** Whatever is in the directory, it is accepted exactly when it is the pack of one payload;
      only the rendering of the packet is taken on the word of the manifest. */
  lemma AcceptableIsOnePack(attempt: Id, files: Files)
    ensures Acceptable(attempt, files) <==> exists p, packet :: IsPack(attempt, p, packet, files)
  {
    if Acceptable(attempt, files) {
      var digests := files[MANIFEST].digests;
      assert files[File(CONTRACT)] == digests.contract && files[File(CONFIRMATION)] == digests.confirmation;
      assert files[File(EVIDENCE)] == digests.evidence && files[File(PACKET)] == digests.packet;
      assert IsPack(attempt, files[File(EVIDENCE)].payload, files[File(PACKET)], files);
    }
    if p, packet :| IsPack(attempt, p, packet, files) {
      forall a: Artifact
        ensures File(a) in files && files[File(a)] == DigestOf(files[MANIFEST].digests, a)
      {
        AllArtifacts(a);
        match a
        case CONTRACT =>
        case CONFIRMATION =>
        case EVIDENCE =>
        case PACKET =>
      }
    }
  }

  lemma AllPlaced(attempt: Id, p: Payload)
    ensures Placed(attempt, p, 6).Keys == ENTRIES
    ensures forall e :: e in ENTRIES ==> Placed(attempt, p, 6)[e] == Content(attempt, p, e)
  {
    assert ORDER[..6] == ORDER;
    assert ORDER[0] == File(CONTRACT) && ORDER[1] == File(CONFIRMATION) && ORDER[2] == File(EVIDENCE) && ORDER[3] == File(PACKET);
    assert ORDER[4] == MANIFEST && ORDER[5] == MARKER;
  }

  lemma PlacedNext(attempt: Id, p: Payload, n: nat)
    requires n < |ORDER|
    ensures Placed(attempt, p, n + 1) == Placed(attempt, p, n)[ORDER[n] := Content(attempt, p, ORDER[n])]
  {
    assert ORDER[..n + 1] == ORDER[..n] + [ORDER[n]];
  }

  /** How far a publication gets: an error at its n-th fallible step, or none. */
  datatype Fault = At(step: nat) | Never

  const LINKED: nat := 5
  const LAST_FAULT: nat := 8

  class Root {
    const attempt: Id
    var destination: Option<Files>

    constructor (attempt: Id)
      ensures this.attempt == attempt && destination == None
    {
      this.attempt := attempt;
      destination := None;
    }

    /** What an error leaves behind: nothing, unless the temporary directory was already gone. */
    method CleanUp(temporary: bool, claimedDestination: bool)
      modifies this`destination
      ensures destination == if claimedDestination && temporary then None else old(destination)
    {
      if claimedDestination && temporary {
        destination := None;
      }
    }

    /** Claims the final name, links the entries in order, writes the marker, drops the temporary
        directory and synchronizes the root. An error up to the dropping of the temporary
        directory removes what was claimed; a later one leaves the pack in place. */
    method Publish(p: Payload, fault: Fault) returns (published: Option<Publication>)
      modifies this`destination
      ensures old(destination).Some? ==> published.None? && destination == old(destination)
      ensures old(destination).None? && fault != Never && fault.step < LAST_FAULT ==> published.None? && destination == None
      ensures old(destination).None? && fault == At(LAST_FAULT) ==>
        published.None? && destination == Some(Placed(attempt, p, 6))
      ensures old(destination).None? && (fault == Never || fault.step > LAST_FAULT) ==>
        published == Some(RecordFor(attempt, p)) && destination == Some(Placed(attempt, p, 6))
    {
      hide Content;
      if fault == At(0) || destination.Some? {
        CleanUp(true, false);
        return None;
      }
      destination := Some(map[]);
      assert Placed(attempt, p, 0) == map[];
      for k := 0 to LINKED
        invariant destination == Some(Placed(attempt, p, k))
        invariant forall j :: 0 <= j <= k ==> fault != At(j)
      {
        if fault == At(k + 1) {
          CleanUp(true, true);
          return None;
        }
        PlacedNext(attempt, p, k);
        destination := Some(destination.value[ORDER[k] := Content(attempt, p, ORDER[k])]);
      }
      if fault == At(LINKED + 1) {
        CleanUp(true, true);
        return None;
      }
      PlacedNext(attempt, p, 5);
      destination := Some(destination.value[MARKER := Content(attempt, p, MARKER)]);
      if fault == At(LINKED + 2) {
        CleanUp(true, true);
        return None;
      }
      if fault == At(LAST_FAULT) {
        CleanUp(false, true);
        return None;
      }
      published := Some(RecordFor(attempt, p));
    }

    /** Rechecks the entry set, the manifest and every artifact against it. */
    method Verify() returns (published: Option<Publication>)
      ensures published.Some? <==> destination.Some? && Acceptable(attempt, destination.value)
      ensures published.Some? ==>
        published.value == Publication(attempt, destination.value[MANIFEST], destination.value[File(PACKET)])
    {
      if destination.None? || destination.value.Keys != ENTRIES {
        return None;
      }
      var files := destination.value;
      var manifest := files[MANIFEST];
      if !manifest.ManifestBytes? || manifest.attempt != attempt {
        return None;
      }
      var artifactBytes: map<Artifact, Bytes> := map[];
      forall a: Artifact
        ensures File(a) in files
      {
        AllArtifacts(a);
      }
      for k := 0 to |ARTIFACTS|
        invariant forall j :: 0 <= j < k ==> files[File(ARTIFACTS[j])] == DigestOf(manifest.digests, ARTIFACTS[j])
        invariant artifactBytes == map a | a in ARTIFACTS[..k] :: files[File(a)]
      {
        var a := ARTIFACTS[k];
        if files[File(a)] != DigestOf(manifest.digests, a) {
          assert !Acceptable(attempt, files);
          return None;
        }
        assert ARTIFACTS[..k + 1] == ARTIFACTS[..k] + [a];
        artifactBytes := artifactBytes[a := files[File(a)]];
      }
      assert ARTIFACTS[..4] == ARTIFACTS;
      forall a: Artifact
        ensures a in ARTIFACTS && files[File(a)] == DigestOf(manifest.digests, a)
      {
        AllArtifacts(a);
        var j :| 0 <= j < |ARTIFACTS| && ARTIFACTS[j] == a;
      }
      if !Bound(artifactBytes[CONTRACT], artifactBytes[CONFIRMATION], artifactBytes[EVIDENCE]) {
        return None;
      }
      published := Some(Publication(attempt, manifest, artifactBytes[PACKET]));
    }
  }

  /** Verifying what was published returns the record that its publisher returned. */
  lemma VerifiesAsPublished(attempt: Id, p: Payload)
    ensures Acceptable(attempt, Placed(attempt, p, 6))
    ensures Publication(attempt, Placed(attempt, p, 6)[MANIFEST], Placed(attempt, p, 6)[File(PACKET)]) == RecordFor(attempt, p)
    ensures forall n :: 0 <= n < 6 ==> !Acceptable(attempt, Placed(attempt, p, n))
  {
    AllPlaced(attempt, p);
    forall a: Artifact
      ensures File(a) in Placed(attempt, p, 6)
    {
      AllArtifacts(a);
    }
    forall n | 0 <= n < 6
      ensures !Acceptable(attempt, Placed(attempt, p, n))
    {
      MarkerIsLast(n);
    }
  }

  lemma AllArtifacts(a: Artifact)
    ensures a in ARTIFACTS && File(a) in ENTRIES
  {
    assert ARTIFACTS[0] == CONTRACT && ARTIFACTS[1] == CONFIRMATION && ARTIFACTS[2] == EVIDENCE && ARTIFACTS[3] == PACKET;
  }

  lemma MarkerIsLast(n: nat)
    requires n < 6
    ensures MARKER !in ORDER[..n]
  {
  }

  /** Two packs have one record only if they are one pack. */
  lemma RecordsTellPacksApart(attempt: Id, p: Payload, q: Payload)
    ensures RecordFor(attempt, p) == RecordFor(attempt, q) <==> p == q
  {
  }
}
