/** Publishing and verifying undisturbed are runs of the racing system. */
module EvidencePackRefinement {
  import opened Wrappers
  import opened EvidencePack
  import opened EvidencePackRuns

  lemma {:induction false} RunAppend(s: System, first: seq<Step>, second: seq<Step>)
    ensures Run(s, first + second) == Run(Run(s, first), second)
    decreases |first|
  {
    hide Next;
    if first == [] {
      assert first + second == second;
    } else {
      RunAppend(Next(s, first[0]), first[1..], second);
      assert (first + second)[1..] == first[1..] + second;
    }
  }

  lemma RunOne(s: System, e: Step)
    ensures Run(s, [e]) == Next(s, e)
  {
    hide Next;
    assert [e][1..] == [];
  }

  function Links(p: nat, n: nat): seq<Step> {
    if n == 0 then [] else Links(p, n - 1) + [Link(p)]
  }

  function Filled(s: System, p: nat, n: nat): System
    requires p < |s.publishers| && p < |s.payloads| && n <= LINKED
  {
    s.(publishers := s.publishers[p := Linking(n)], directory := Some(Directory(p, Placed(s.attempt, s.payloads[p], n))))
  }

  lemma FillsOne(s: System, p: nat, n: nat)
    requires p < |s.publishers| && p < |s.payloads| && n < LINKED
    ensures Next(Filled(s, p, n), Link(p)) == Filled(s, p, n + 1)
  {
    PlacedNext(s.attempt, s.payloads[p], n);
    NextEntry(n);
    assert ORDER[n] !in Placed(s.attempt, s.payloads[p], n);
    hide Placed, Content;
  }

  lemma FillsNone(s: System, p: nat)
    requires p < |s.publishers| && p < |s.payloads|
    requires s.publishers[p] == Linking(0) && s.directory == Some(Directory(p, map[]))
    ensures Filled(s, p, 0) == s
  {
    assert Placed(s.attempt, s.payloads[p], 0) == map[];
    assert s.publishers[p := Linking(0)] == s.publishers;
  }

  /** A claimed directory filled in order. */
  lemma {:induction false} Fills(s: System, p: nat, n: nat)
    requires p < |s.publishers| && p < |s.payloads| && n <= LINKED
    requires s.publishers[p] == Linking(0) && s.directory == Some(Directory(p, map[]))
    ensures Run(s, Links(p, n)) == Filled(s, p, n)
  {
    hide Next, Filled, Placed;
    if n == 0 {
      FillsNone(s, p);
    } else {
      hide Run;
      Fills(s, p, n - 1);
      RunAppend(s, Links(p, n - 1), [Link(p)]);
      RunOne(Filled(s, p, n - 1), Link(p));
      FillsOne(s, p, n - 1);
    }
  }

  /** A publisher alone with a free name leaves what the sequential publication leaves. */
  lemma QuietPublication(s: System, p: nat, synchronized: bool)
    requires p < |s.publishers| && p < |s.payloads| && s.publishers[p] == Preparing && s.directory == None
    ensures Run(s, [Claim(p)] + (Links(p, LINKED) + ([Mark(p)] + [Return(p, synchronized)]))) ==
            s.(directory := Some(Directory(p, Placed(s.attempt, s.payloads[p], 6))),
               publishers := s.publishers[p := if synchronized then Published else Kept])
  {
    var claimed := s.(directory := Some(Directory(p, map[])), publishers := s.publishers[p := Linking(0)]);
    var filled := Filled(claimed, p, LINKED);
    var marked := s.(directory := Some(Directory(p, Placed(s.attempt, s.payloads[p], 6))), publishers := s.publishers[p := Marked]);
    hide Run, Placed, Links, Content;
    assert Next(s, Claim(p)) == claimed;
    FilledIsMarked(claimed, p);
    assert Next(marked, Return(p, synchronized)) ==
      s.(directory := marked.directory, publishers := s.publishers[p := if synchronized then Published else Kept]);
    hide Next, Filled;
    RunAppend(s, [Claim(p)], Links(p, LINKED) + ([Mark(p)] + [Return(p, synchronized)]));
    RunAppend(claimed, Links(p, LINKED), [Mark(p)] + [Return(p, synchronized)]);
    RunAppend(filled, [Mark(p)], [Return(p, synchronized)]);
    RunOne(s, Claim(p));
    Fills(claimed, p, LINKED);
    RunOne(filled, Mark(p));
    RunOne(marked, Return(p, synchronized));
  }

  lemma FilledIsMarked(s: System, p: nat)
    requires p < |s.publishers| && p < |s.payloads|
    ensures Next(Filled(s, p, LINKED), Mark(p)) ==
            s.(directory := Some(Directory(p, Placed(s.attempt, s.payloads[p], 6))), publishers := s.publishers[p := Marked])
  {
    PlacedNext(s.attempt, s.payloads[p], 5);
    MarkerIsEmpty(s.attempt, s.payloads[p]);
    hide Placed, Content;
  }

  /******* A reader that nothing disturbs *******/

  function Reads(r: nat, n: nat): seq<Step> {
    if n == 0 then [ReadManifest(r)] else Reads(r, n - 1) + [ReadArtifact(r)]
  }

  predicate ManifestReads(s: System, files: Files) {
    MANIFEST in files && files[MANIFEST].ManifestBytes? && files[MANIFEST].attempt == s.attempt
  }

  predicate Matches(files: Files, n: nat)
    requires n <= |ARTIFACTS| && MANIFEST in files && files[MANIFEST].ManifestBytes?
  {
    forall k :: 0 <= k < n ==>
      File(ARTIFACTS[k]) in files && files[File(ARTIFACTS[k])] == DigestOf(files[MANIFEST].digests, ARTIFACTS[k])
  }

  /** The reader after its n-th artifact. */
  function QuietReader(s: System, d: Directory, n: nat): Reader
    requires n <= |ARTIFACTS| && ManifestReads(s, d.files)
  {
    if Matches(d.files, n) then
      Reading(d.owner, d.files[MANIFEST], n, seq(n, k requires 0 <= k < n => DigestOf(d.files[MANIFEST].digests, ARTIFACTS[k])))
    else Rejected
  }

  lemma QuietArtifact(s: System, r: nat, d: Directory, n: nat)
    requires r < |s.readers| && s.directory == Some(d) && n < |ARTIFACTS| && ManifestReads(s, d.files)
    ensures Next(ReaderTo(s, r, QuietReader(s, d, n)), ReadArtifact(r)) == ReaderTo(s, r, QuietReader(s, d, n + 1))
  {
    if Matches(d.files, n + 1) {
      assert QuietReader(s, d, n + 1).bytes == QuietReader(s, d, n).bytes + [DigestOf(d.files[MANIFEST].digests, ARTIFACTS[n])];
    }
    hide DigestOf;
  }

  lemma QuietManifest(s: System, r: nat, d: Directory)
    requires r < |s.readers| && s.directory == Some(d) && s.readers[r] == Listed(d.owner)
    ensures Next(s, ReadManifest(r)) == ReaderTo(s, r, if ManifestReads(s, d.files) then QuietReader(s, d, 0) else Rejected)
  {
    if ManifestReads(s, d.files) {
      assert QuietReader(s, d, 0).bytes == [];
    }
  }

  lemma {:induction false} QuietReads(s: System, r: nat, d: Directory, n: nat)
    requires r < |s.readers| && s.directory == Some(d) && s.readers[r] == Listed(d.owner) && n <= |ARTIFACTS|
    ensures Run(s, Reads(r, n)) == ReaderTo(s, r, if ManifestReads(s, d.files) then QuietReader(s, d, n) else Rejected)
  {
    hide Next, Run, QuietReader, ManifestReads;
    if n == 0 {
      RunOne(s, ReadManifest(r));
      QuietManifest(s, r, d);
    } else {
      QuietReads(s, r, d, n - 1);
      RunAppend(s, Reads(r, n - 1), [ReadArtifact(r)]);
      if ManifestReads(s, d.files) {
        RunOne(ReaderTo(s, r, QuietReader(s, d, n - 1)), ReadArtifact(r));
        QuietArtifact(s, r, d, n - 1);
      } else {
        RunOne(ReaderTo(s, r, Rejected), ReadArtifact(r));
        StaysRejected(s, r, ReadArtifact(r));
      }
    }
  }

  lemma StaysRejected(s: System, r: nat, e: Step)
    requires r < |s.readers| && (e == ReadArtifact(r) || e == ReadManifest(r) || e == Conclude(r))
    ensures Next(ReaderTo(s, r, Rejected), e) == ReaderTo(s, r, Rejected)
  {
  }

  lemma QuietConclusion(s: System, r: nat, d: Directory)
    requires r < |s.readers| && s.directory == Some(d) && ManifestReads(s, d.files) && d.files.Keys == ENTRIES
    ensures Next(ReaderTo(s, r, QuietReader(s, d, 4)), Conclude(r)) ==
            ReaderTo(s, r, if Acceptable(s.attempt, d.files)
                           then Accepted(d.owner, Publication(s.attempt, d.files[MANIFEST], d.files[File(PACKET)]))
                           else Rejected)
  {
    forall a: Artifact
      ensures a in ARTIFACTS && File(a) in d.files
    {
      AllArtifacts(a);
    }
    assert ARTIFACTS[0] == CONTRACT && ARTIFACTS[1] == CONFIRMATION && ARTIFACTS[2] == EVIDENCE && ARTIFACTS[3] == PACKET;
    MatchesAll(d.files);
  }

  lemma MatchesAll(files: Files)
    requires MANIFEST in files && files[MANIFEST].ManifestBytes? && files.Keys == ENTRIES
    ensures Matches(files, 4) <==> forall a :: File(a) in files && files[File(a)] == DigestOf(files[MANIFEST].digests, a)
  {
    if Matches(files, 4) {
      forall a: Artifact
        ensures File(a) in files && files[File(a)] == DigestOf(files[MANIFEST].digests, a)
      {
        AllArtifacts(a);
        var k :| 0 <= k < |ARTIFACTS| && ARTIFACTS[k] == a;
      }
    }
    hide DigestOf;
  }

  /** A reader that nothing disturbs accepts exactly the acceptable directories, with the record
      that the sequential verification answers. */
  lemma QuietVerification(s: System, r: nat, d: Directory)
    requires r < |s.readers| && s.directory == Some(d) && s.readers[r] == Beginning
    ensures Run(s, [List(r)] + (Reads(r, 4) + [Conclude(r)])) ==
            ReaderTo(s, r, if Acceptable(s.attempt, d.files)
                           then Accepted(d.owner, Publication(s.attempt, d.files[MANIFEST], d.files[File(PACKET)]))
                           else Rejected)
  {
    RunAppend(s, [List(r)], Reads(r, 4) + [Conclude(r)]);
    RunOne(s, List(r));
    if d.files.Keys == ENTRIES {
      var listed := ReaderTo(s, r, Listed(d.owner));
      assert Next(s, List(r)) == listed;
      RunAppend(listed, Reads(r, 4), [Conclude(r)]);
      QuietReads(listed, r, d, 4);
      AfterReads(s, listed, r, d);
    } else {
      assert Next(s, List(r)) == ReaderTo(s, r, Rejected);
      RejectedReads(s, r, 4);
      RunAppend(ReaderTo(s, r, Rejected), Reads(r, 4), [Conclude(r)]);
      RunOne(ReaderTo(s, r, Rejected), Conclude(r));
      StaysRejected(s, r, Conclude(r));
    }
    hide Run, Next, Reads;
  }

  lemma AfterReads(s: System, listed: System, r: nat, d: Directory)
    requires r < |s.readers| && s.directory == Some(d) && d.files.Keys == ENTRIES && listed == ReaderTo(s, r, Listed(d.owner))
    requires Run(listed, Reads(r, 4)) ==
             ReaderTo(listed, r, if ManifestReads(listed, d.files) then QuietReader(listed, d, 4) else Rejected)
    ensures Run(Run(listed, Reads(r, 4)), [Conclude(r)]) ==
            ReaderTo(s, r, if Acceptable(s.attempt, d.files)
                           then Accepted(d.owner, Publication(s.attempt, d.files[MANIFEST], d.files[File(PACKET)]))
                           else Rejected)
  {
    var read := Run(listed, Reads(r, 4));
    RunOne(read, Conclude(r));
    hide Run, Reads, Next, QuietReader;
    assert forall state :: ReaderTo(listed, r, state) == ReaderTo(s, r, state);
    if ManifestReads(listed, d.files) {
      QuietConclusion(listed, r, d);
    } else {
      StaysRejected(s, r, Conclude(r));
    }
  }

  lemma {:induction false} RejectedReads(s: System, r: nat, n: nat)
    requires r < |s.readers|
    ensures Run(ReaderTo(s, r, Rejected), Reads(r, n)) == ReaderTo(s, r, Rejected)
  {
    hide Next, Run, ReaderTo;
    if n == 0 {
      RunOne(ReaderTo(s, r, Rejected), ReadManifest(r));
      StaysRejected(s, r, ReadManifest(r));
    } else {
      RejectedReads(s, r, n - 1);
      RunAppend(ReaderTo(s, r, Rejected), Reads(r, n - 1), [ReadArtifact(r)]);
      RunOne(ReaderTo(s, r, Rejected), ReadArtifact(r));
      StaysRejected(s, r, ReadArtifact(r));
    }
  }
}
