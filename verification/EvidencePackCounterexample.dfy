/** A reader that looks at one pack twice removed: it lists one publisher's pack and reads
    another's, which never gets its completion marker. And exactly when that cannot happen. */
module EvidencePackCounterexample {
  import opened Wrappers
  import opened EvidencePack
  import opened EvidencePackRuns
  import opened EvidencePackRefinement
  import opened EvidencePackMarkers

  function Removals(p: nat, n: nat): seq<Step>
    requires n <= |ORDER|
  {
    if n == 0 then [] else Removals(p, n - 1) + [RemoveFile(p, ORDER[n - 1])]
  }

  lemma {:induction false} Removes(s: System, p: nat, n: nat)
    requires p < |s.publishers| && p < |s.payloads| && n <= |ORDER|
    requires s.publishers[p] == Cleaning && s.directory.Some?
    ensures Run(s, Removals(p, n)) == WithFiles(s, s.directory.value.files - Linked(n))
  {
    hide Run, Linked, Next, WithFiles;
    var files := s.directory.value.files;
    if n == 0 {
      RemovesNothing(s);
    } else {
      Removes(s, p, n - 1);
      RunAppend(s, Removals(p, n - 1), [RemoveFile(p, ORDER[n - 1])]);
      RunOne(WithFiles(s, files - Linked(n - 1)), RemoveFile(p, ORDER[n - 1]));
      RemovesOne(s, p, n);
    }
  }

  lemma RemovesNothing(s: System)
    requires s.directory.Some?
    ensures Run(s, []) == s == WithFiles(s, s.directory.value.files - Linked(0))
  {
    assert s.directory.value.files - Linked(0) == s.directory.value.files;
  }

  lemma RemovesOne(s: System, p: nat, n: nat)
    requires p < |s.publishers| && p < |s.payloads| && 0 < n <= |ORDER|
    requires s.publishers[p] == Cleaning && s.directory.Some?
    ensures var files := s.directory.value.files;
            Next(WithFiles(s, files - Linked(n - 1)), RemoveFile(p, ORDER[n - 1])) == WithFiles(s, files - Linked(n))
  {
    hide Linked, Content;
    var files := s.directory.value.files;
    NextEntry(n - 1);
    assert (files - Linked(n - 1)) - {ORDER[n - 1]} == files - Linked(n);
  }

  function HasRead(s: System, r: nat, seen: nat, q: nat, n: nat): System
    requires r < |s.readers| && q < |s.payloads| && n <= |ARTIFACTS|
  {
    ReaderTo(s, r, Reading(seen, ManifestFor(s.attempt, s.payloads[q]), n,
                           seq(n, k requires 0 <= k < n => ArtifactBytes(s.payloads[q], ARTIFACTS[k]))))
  }

  lemma ReadsManifest(s: System, r: nat, seen: nat, q: nat)
    requires r < |s.readers| && q < |s.payloads| && s.readers[r] == Listed(seen)
    requires s.directory == Some(Directory(q, Placed(s.attempt, s.payloads[q], LINKED)))
    ensures Next(s, ReadManifest(r)) == HasRead(s, r, seen, q, 0)
  {
    PlacedHolds(s.attempt, s.payloads[q]);
    hide Placed;
    assert HasRead(s, r, seen, q, 0).readers[r].bytes == [];
  }

  lemma ReadsArtifact(s: System, r: nat, seen: nat, q: nat, n: nat)
    requires r < |s.readers| && q < |s.payloads| && n < |ARTIFACTS|
    requires s.directory == Some(Directory(q, Placed(s.attempt, s.payloads[q], LINKED)))
    ensures Next(HasRead(s, r, seen, q, n), ReadArtifact(r)) == HasRead(s, r, seen, q, n + 1)
  {
    PlacedHolds(s.attempt, s.payloads[q]);
    hide Placed;
    var before := HasRead(s, r, seen, q, n);
    var bytes, a := before.readers[r].bytes, ARTIFACTS[n];
    assert DigestOf(before.readers[r].manifest.digests, a) == ArtifactBytes(s.payloads[q], a);
    assert HasRead(s, r, seen, q, n + 1).readers[r].bytes == bytes + [ArtifactBytes(s.payloads[q], a)];
    hide ArtifactBytes, DigestOf, ManifestFor;
  }

  /** A reader that listed some pack reads the artifacts of another one in place. */
  lemma {:induction false} ReadsOn(s: System, r: nat, seen: nat, q: nat, n: nat)
    requires r < |s.readers| && q < |s.payloads| && n <= |ARTIFACTS|
    requires s.readers[r] == Listed(seen) && s.directory == Some(Directory(q, Placed(s.attempt, s.payloads[q], LINKED)))
    ensures Run(s, Reads(r, n)) == HasRead(s, r, seen, q, n)
  {
    hide Placed, Next, HasRead, Run;
    if n == 0 {
      RunOne(s, ReadManifest(r));
      ReadsManifest(s, r, seen, q);
    } else {
      ReadsOn(s, r, seen, q, n - 1);
      RunAppend(s, Reads(r, n - 1), [ReadArtifact(r)]);
      RunOne(HasRead(s, r, seen, q, n - 1), ReadArtifact(r));
      ReadsArtifact(s, r, seen, q, n - 1);
    }
  }

  lemma PlacedHolds(attempt: Id, p: Payload)
    ensures MANIFEST in Placed(attempt, p, LINKED) && Placed(attempt, p, LINKED)[MANIFEST] == ManifestFor(attempt, p)
    ensures forall k :: 0 <= k < |ARTIFACTS| ==> File(ARTIFACTS[k]) in Placed(attempt, p, LINKED)
    ensures forall k :: 0 <= k < |ARTIFACTS| ==> Placed(attempt, p, LINKED)[File(ARTIFACTS[k])] == ArtifactBytes(p, ARTIFACTS[k])
  {
    assert ORDER[..5] == [File(CONTRACT), File(CONFIRMATION), File(EVIDENCE), File(PACKET), MANIFEST];
  }

  /******* Two publishers and the first reader, among others that stand by *******/

  predicate Fresh(s: System, p: nat, q: nat) {
    && p != q && p < |s.publishers| && q < |s.publishers| && |s.publishers| == |s.payloads| && 0 < |s.readers|
    && s.publishers[p] == s.publishers[q] == Preparing && s.directory == None && s.readers[0] == Beginning
  }

  function Two(s: System, p: nat, q: nat, first: Publisher, second: Publisher, directory: Option<Directory>,
               reader: Reader): System
    requires p < |s.publishers| && q < |s.publishers| && 0 < |s.readers|
  {
    s.(publishers := s.publishers[p := first][q := second], directory := directory, readers := s.readers[0 := reader])
  }

  lemma FreshIsTwo(s: System, p: nat, q: nat)
    requires Fresh(s, p, q)
    ensures Two(s, p, q, Preparing, Preparing, None, Beginning) == s
  {
    assert s.publishers[p := Preparing][q := Preparing] == s.publishers;
    assert s.readers[0 := Beginning] == s.readers;
  }

  lemma Standing(s: System, p: nat, q: nat, first: Publisher, second: Publisher, d: Option<Directory>, reader: Reader)
    requires Fresh(s, p, q)
    ensures var t := Two(s, p, q, first, second, d, reader);
            && |t.publishers| == |s.publishers| && |t.readers| == |s.readers|
            && t.payloads == s.payloads && t.attempt == s.attempt
            && t.publishers[p] == first && t.publishers[q] == second && t.readers[0] == reader && t.directory == d
  {
  }

  lemma FirstMoves(s: System, p: nat, q: nat, first: Publisher, second: Publisher, d: Option<Directory>, reader: Reader,
                   x: Publisher, e: Option<Directory>)
    requires Fresh(s, p, q)
    ensures To(Two(s, p, q, first, second, d, reader).(directory := e), p, x) == Two(s, p, q, x, second, e, reader)
  {
    assert s.publishers[p := first][q := second][p := x] == s.publishers[p := x][q := second];
  }

  lemma SecondMoves(s: System, p: nat, q: nat, first: Publisher, second: Publisher, d: Option<Directory>, reader: Reader,
                    x: Publisher, e: Option<Directory>)
    requires Fresh(s, p, q)
    ensures To(Two(s, p, q, first, second, d, reader).(directory := e), q, x) == Two(s, p, q, first, x, e, reader)
  {
    assert s.publishers[p := first][q := second][q := x] == s.publishers[p := first][q := x];
  }

  lemma ReaderMoves(s: System, p: nat, q: nat, first: Publisher, second: Publisher, d: Option<Directory>, reader: Reader,
                    x: Reader)
    requires Fresh(s, p, q)
    ensures ReaderTo(Two(s, p, q, first, second, d, reader), 0, x) == Two(s, p, q, first, second, d, x)
  {
    assert s.readers[0 := reader][0 := x] == s.readers[0 := x];
  }

  /** The first completes its pack, and the reader lists it. */
  function Opening(p: nat): seq<Step> {
    [Claim(p)] + Links(p, LINKED) + [Mark(p)] + [List(0)]
  }

  /** The first fails after its marker and removes its directory. */
  function Withdrawal(p: nat): seq<Step> {
    [Fail(p)] + Removals(p, 6) + [RemoveDirectory(p)]
  }

  /** The second fills the directory. */
  function Replacement(q: nat): seq<Step> {
    [Claim(q)] + Links(q, LINKED)
  }

  /** The reader reads on, and the second dies. */
  function Ending(q: nat): seq<Step> {
    Reads(0, 4) + [Conclude(0)] + [Crash(q)]
  }

  function Interruption(p: nat, q: nat): seq<Step> {
    Opening(p) + Withdrawal(p) + Replacement(q) + Ending(q)
  }

  lemma LinkedKeys(attempt: Id, payload: Payload)
    ensures Placed(attempt, payload, LINKED).Keys == Linked(LINKED)
    ensures Placed(attempt, payload, LINKED)[MARKER := NoBytes].Keys == ENTRIES
  {
    AllLinked();
    var files := Placed(attempt, payload, LINKED);
    assert files[MARKER := NoBytes].Keys == files.Keys + {MARKER};
  }

  lemma Claims(s: System, p: nat, q: nat)
    requires Fresh(s, p, q)
    ensures Next(s, Claim(p)) == Two(s, p, q, Linking(0), Preparing, Some(Directory(p, map[])), Beginning)
  {
    FreshIsTwo(s, p, q);
    Standing(s, p, q, Preparing, Preparing, None, Beginning);
    FirstMoves(s, p, q, Preparing, Preparing, None, Beginning, Linking(0), Some(Directory(p, map[])));
    hide Two;
  }

  lemma Marks(s: System, p: nat, q: nat, files: Files)
    requires Fresh(s, p, q)
    ensures Next(Two(s, p, q, Linking(LINKED), Preparing, Some(Directory(p, files)), Beginning), Mark(p)) ==
            Two(s, p, q, Marked, Preparing, Some(Directory(p, files[MARKER := NoBytes])), Beginning)
  {
    var d := Some(Directory(p, files));
    Standing(s, p, q, Linking(LINKED), Preparing, d, Beginning);
    FirstMoves(s, p, q, Linking(LINKED), Preparing, d, Beginning, Marked, Some(Directory(p, files[MARKER := NoBytes])));
    hide Two;
  }

  lemma Lists(s: System, p: nat, q: nat, files: Files)
    requires Fresh(s, p, q) && files.Keys == ENTRIES
    ensures Next(Two(s, p, q, Marked, Preparing, Some(Directory(p, files)), Beginning), List(0)) ==
            Two(s, p, q, Marked, Preparing, Some(Directory(p, files)), Listed(p))
  {
    var d := Some(Directory(p, files));
    Standing(s, p, q, Marked, Preparing, d, Beginning);
    ReaderMoves(s, p, q, Marked, Preparing, d, Beginning, Listed(p));
    hide Two;
  }

  lemma FilledFirst(s: System, p: nat, q: nat)
    requires Fresh(s, p, q)
    ensures var d := Some(Directory(p, Placed(s.attempt, s.payloads[p], LINKED)));
            Run(Two(s, p, q, Linking(0), Preparing, Some(Directory(p, map[])), Beginning), Links(p, LINKED)) ==
            Two(s, p, q, Linking(LINKED), Preparing, d, Beginning)
  {
    hide Run, Placed, Links;
    var d := Some(Directory(p, Placed(s.attempt, s.payloads[p], LINKED)));
    var claimed := Two(s, p, q, Linking(0), Preparing, Some(Directory(p, map[])), Beginning);
    Standing(s, p, q, Linking(0), Preparing, Some(Directory(p, map[])), Beginning);
    Fills(claimed, p, LINKED);
    FirstMoves(s, p, q, Linking(0), Preparing, claimed.directory, Beginning, Linking(LINKED), d);
  }

  lemma Opened(s: System, p: nat, q: nat) returns (files: Files)
    requires Fresh(s, p, q)
    ensures Run(s, Opening(p)) == Two(s, p, q, Marked, Preparing, Some(Directory(p, files)), Listed(p)) && files.Keys == ENTRIES
  {
    hide Run, Next, Links, Placed, Two;
    var linked := Placed(s.attempt, s.payloads[p], LINKED);
    files := linked[MARKER := NoBytes];
    LinkedKeys(s.attempt, s.payloads[p]);
    Claims(s, p, q);
    FilledFirst(s, p, q);
    Marks(s, p, q, linked);
    Lists(s, p, q, files);
    RunAppend(s, [Claim(p)] + Links(p, LINKED) + [Mark(p)], [List(0)]);
    RunAppend(s, [Claim(p)] + Links(p, LINKED), [Mark(p)]);
    RunAppend(s, [Claim(p)], Links(p, LINKED));
    RunOne(s, Claim(p));
    RunOne(Two(s, p, q, Linking(LINKED), Preparing, Some(Directory(p, linked)), Beginning), Mark(p));
    RunOne(Two(s, p, q, Marked, Preparing, Some(Directory(p, files)), Beginning), List(0));
  }

  lemma Fails(s: System, p: nat, q: nat, files: Files)
    requires Fresh(s, p, q)
    ensures Next(Two(s, p, q, Marked, Preparing, Some(Directory(p, files)), Listed(p)), Fail(p)) ==
            Two(s, p, q, Cleaning, Preparing, Some(Directory(p, files)), Listed(p))
  {
    var d := Some(Directory(p, files));
    Standing(s, p, q, Marked, Preparing, d, Listed(p));
    FirstMoves(s, p, q, Marked, Preparing, d, Listed(p), Cleaning, d);
    hide Two;
  }

  lemma Empties(s: System, p: nat, q: nat, files: Files)
    requires Fresh(s, p, q) && files.Keys == ENTRIES
    ensures Run(Two(s, p, q, Cleaning, Preparing, Some(Directory(p, files)), Listed(p)), Removals(p, 6)) ==
            Two(s, p, q, Cleaning, Preparing, Some(Directory(p, map[])), Listed(p))
  {
    hide Run, Removals;
    var d := Some(Directory(p, files));
    Standing(s, p, q, Cleaning, Preparing, d, Listed(p));
    Removes(Two(s, p, q, Cleaning, Preparing, d, Listed(p)), p, 6);
    assert files - Linked(6) == map[] by {
      NextEntry(5);
      AllLinked();
    }
  }

  lemma Withdraws(s: System, p: nat, q: nat)
    requires Fresh(s, p, q)
    ensures Next(Two(s, p, q, Cleaning, Preparing, Some(Directory(p, map[])), Listed(p)), RemoveDirectory(p)) ==
            Two(s, p, q, Removed, Preparing, None, Listed(p))
  {
    var d: Option<Directory> := Some(Directory(p, map[]));
    Standing(s, p, q, Cleaning, Preparing, d, Listed(p));
    FirstMoves(s, p, q, Cleaning, Preparing, d, Listed(p), Removed, None);
    hide Two;
  }

  lemma Withdrawn(s: System, p: nat, q: nat, files: Files)
    requires Fresh(s, p, q) && files.Keys == ENTRIES
    ensures Run(Two(s, p, q, Marked, Preparing, Some(Directory(p, files)), Listed(p)), Withdrawal(p)) ==
            Two(s, p, q, Removed, Preparing, None, Listed(p))
  {
    hide Run, Next, Two, Removals;
    var marked := Two(s, p, q, Marked, Preparing, Some(Directory(p, files)), Listed(p));
    Fails(s, p, q, files);
    Empties(s, p, q, files);
    Withdraws(s, p, q);
    RunAppend(marked, [Fail(p)] + Removals(p, 6), [RemoveDirectory(p)]);
    RunAppend(marked, [Fail(p)], Removals(p, 6));
    RunOne(marked, Fail(p));
    RunOne(Two(s, p, q, Cleaning, Preparing, Some(Directory(p, map[])), Listed(p)), RemoveDirectory(p));
  }

  lemma ClaimsAgain(s: System, p: nat, q: nat)
    requires Fresh(s, p, q)
    ensures Next(Two(s, p, q, Removed, Preparing, None, Listed(p)), Claim(q)) ==
            Two(s, p, q, Removed, Linking(0), Some(Directory(q, map[])), Listed(p))
  {
    Standing(s, p, q, Removed, Preparing, None, Listed(p));
    SecondMoves(s, p, q, Removed, Preparing, None, Listed(p), Linking(0), Some(Directory(q, map[])));
    hide Two;
  }

  lemma Replaced(s: System, p: nat, q: nat)
    requires Fresh(s, p, q)
    ensures Run(Two(s, p, q, Removed, Preparing, None, Listed(p)), Replacement(q)) ==
            Two(s, p, q, Removed, Linking(LINKED), Some(Directory(q, Placed(s.attempt, s.payloads[q], LINKED))), Listed(p))
  {
    hide Run, Next, Placed, Links;
    var free := Two(s, p, q, Removed, Preparing, None, Listed(p));
    var claimed := Two(s, p, q, Removed, Linking(0), Some(Directory(q, map[])), Listed(p));
    ClaimsAgain(s, p, q);
    Standing(s, p, q, Removed, Linking(0), claimed.directory, Listed(p));
    Fills(claimed, q, LINKED);
    SecondMoves(s, p, q, Removed, Linking(0), claimed.directory, Listed(p), Linking(LINKED),
                Some(Directory(q, Placed(s.attempt, s.payloads[q], LINKED))));
    RunAppend(free, [Claim(q)], Links(q, LINKED));
    RunOne(free, Claim(q));
  }

  lemma BytesRead(payload: Payload, bytes: seq<Bytes>)
    requires |bytes| == 4 && forall k :: 0 <= k < 4 ==> bytes[k] == ArtifactBytes(payload, ARTIFACTS[k])
    ensures bytes[0] == ContractBytes(payload.contract) && bytes[1] == ConfirmationBytes(payload.confirmation)
    ensures bytes[2] == EvidenceBytes(payload) && bytes[3] == PacketBytes(payload)
  {
    assert ARTIFACTS[0] == CONTRACT && ARTIFACTS[1] == CONFIRMATION && ARTIFACTS[2] == EVIDENCE && ARTIFACTS[3] == PACKET;
  }

  lemma Concludes(s: System, p: nat, q: nat, d: Option<Directory>, bytes: seq<Bytes>)
    requires Fresh(s, p, q) && |bytes| == 4 && forall k :: 0 <= k < 4 ==> bytes[k] == ArtifactBytes(s.payloads[q], ARTIFACTS[k])
    ensures Next(Two(s, p, q, Removed, Linking(LINKED), d, Reading(p, ManifestFor(s.attempt, s.payloads[q]), 4, bytes)),
                 Conclude(0)) ==
            Two(s, p, q, Removed, Linking(LINKED), d, Accepted(p, RecordFor(s.attempt, s.payloads[q])))
  {
    var reading := Reading(p, ManifestFor(s.attempt, s.payloads[q]), 4, bytes);
    BytesRead(s.payloads[q], bytes);
    Standing(s, p, q, Removed, Linking(LINKED), d, reading);
    ReaderMoves(s, p, q, Removed, Linking(LINKED), d, reading, Accepted(p, RecordFor(s.attempt, s.payloads[q])));
    hide Two, ArtifactBytes;
  }

  lemma Dies(s: System, p: nat, q: nat, d: Option<Directory>, reader: Reader)
    requires Fresh(s, p, q)
    ensures Next(Two(s, p, q, Removed, Linking(LINKED), d, reader), Crash(q)) == Two(s, p, q, Removed, Abandoned, d, reader)
  {
    Standing(s, p, q, Removed, Linking(LINKED), d, reader);
    SecondMoves(s, p, q, Removed, Linking(LINKED), d, reader, Abandoned, d);
    hide Two;
  }

  lemma ReadsAll(s: System, p: nat, q: nat) returns (bytes: seq<Bytes>)
    requires Fresh(s, p, q)
    ensures |bytes| == 4 && forall k :: 0 <= k < 4 ==> bytes[k] == ArtifactBytes(s.payloads[q], ARTIFACTS[k])
    ensures var d := Some(Directory(q, Placed(s.attempt, s.payloads[q], LINKED)));
            Run(Two(s, p, q, Removed, Linking(LINKED), d, Listed(p)), Reads(0, 4)) ==
            Two(s, p, q, Removed, Linking(LINKED), d, Reading(p, ManifestFor(s.attempt, s.payloads[q]), 4, bytes))
  {
    hide Run, Reads, Placed, ArtifactBytes, ManifestFor;
    var d := Some(Directory(q, Placed(s.attempt, s.payloads[q], LINKED)));
    var filled := Two(s, p, q, Removed, Linking(LINKED), d, Listed(p));
    Standing(s, p, q, Removed, Linking(LINKED), d, Listed(p));
    ReadsOn(filled, 0, p, q, 4);
    var reading := HasRead(filled, 0, p, q, 4).readers[0];
    bytes := reading.bytes;
    ReaderMoves(s, p, q, Removed, Linking(LINKED), d, Listed(p), reading);
  }

  lemma Ended(s: System, p: nat, q: nat)
    requires Fresh(s, p, q)
    ensures var d := Some(Directory(q, Placed(s.attempt, s.payloads[q], LINKED)));
            Run(Two(s, p, q, Removed, Linking(LINKED), d, Listed(p)), Ending(q)) ==
            Two(s, p, q, Removed, Abandoned, d, Accepted(p, RecordFor(s.attempt, s.payloads[q])))
  {
    hide Run, Next, Reads, Placed, ManifestFor, ArtifactBytes, Two, RecordFor;
    var d := Some(Directory(q, Placed(s.attempt, s.payloads[q], LINKED)));
    var filled := Two(s, p, q, Removed, Linking(LINKED), d, Listed(p));
    var bytes := ReadsAll(s, p, q);
    Concludes(s, p, q, d, bytes);
    Dies(s, p, q, d, Accepted(p, RecordFor(s.attempt, s.payloads[q])));
    RunAppend(filled, Reads(0, 4) + [Conclude(0)], [Crash(q)]);
    RunAppend(filled, Reads(0, 4), [Conclude(0)]);
    RunOne(Two(s, p, q, Removed, Linking(LINKED), d, Reading(p, ManifestFor(s.attempt, s.payloads[q]), 4, bytes)), Conclude(0));
    RunOne(Two(s, p, q, Removed, Linking(LINKED), d, Accepted(p, RecordFor(s.attempt, s.payloads[q]))), Crash(q));
  }

  /** The reader's first step after the replacement. */
  function Turning(p: nat, q: nat): nat {
    |Opening(p) + Withdrawal(p) + Replacement(q)|
  }

  lemma BeforeEnding(s: System, p: nat, q: nat)
    requires Fresh(s, p, q)
    ensures Run(s, Opening(p) + Withdrawal(p) + Replacement(q)) ==
            Two(s, p, q, Removed, Linking(LINKED), Some(Directory(q, Placed(s.attempt, s.payloads[q], LINKED))), Listed(p))
  {
    hide Run, Two, Placed, Opening, Withdrawal, Replacement;
    var files := Opened(s, p, q);
    Withdrawn(s, p, q, files);
    Replaced(s, p, q);
    RunAppend(s, Opening(p) + Withdrawal(p), Replacement(q));
    RunAppend(s, Opening(p), Withdrawal(p));
  }

  lemma {:induction false} ReadsBegin(r: nat, n: nat)
    ensures Reads(r, n) != [] && Reads(r, n)[0] == ReadManifest(r)
  {
    if n > 0 {
      ReadsBegin(r, n - 1);
    }
  }

  /******* Only the first ever writes its marker *******/

  predicate NeverMarks(steps: seq<Step>, p: nat) {
    forall k :: 0 <= k < |steps| ==> steps[k] != Mark(p)
  }

  lemma StepMarksNot(s: System, e: Step, p: nat)
    requires e != Mark(p) && p < |s.publishers| && !s.publishers[p].Marked?
    ensures p < |Next(s, e).publishers| && !Next(s, e).publishers[p].Marked?
  {
    hide Content;
  }

  lemma {:induction false} NoMarker(s: System, steps: seq<Step>, p: nat)
    requires NeverMarks(steps, p) && p < |s.publishers| && !s.publishers[p].Marked?
    ensures !WroteMarker(s, steps, p)
    decreases |steps|
  {
    hide Next;
    if steps != [] {
      StepMarksNot(s, steps[0], p);
      NoMarker(Next(s, steps[0]), steps[1..], p);
    }
  }

  lemma {:induction false} LinksMarkNot(p: nat, n: nat, x: nat)
    ensures NeverMarks(Links(p, n), x)
  {
    if n > 0 {
      LinksMarkNot(p, n - 1, x);
    }
  }

  lemma {:induction false} RemovalsMarkNot(p: nat, n: nat, x: nat)
    requires n <= |ORDER|
    ensures NeverMarks(Removals(p, n), x)
  {
    if n > 0 {
      RemovalsMarkNot(p, n - 1, x);
    }
  }

  lemma {:induction false} ReadsMarkNot(r: nat, n: nat, x: nat)
    ensures NeverMarks(Reads(r, n), x)
  {
    if n > 0 {
      ReadsMarkNot(r, n - 1, x);
    }
  }

  lemma OnlyFirstMarks(s: System, p: nat, q: nat, x: nat)
    requires Fresh(s, p, q) && x != p && (x < |s.publishers| ==> !s.publishers[x].Marked?)
    ensures !WroteMarker(s, Interruption(p, q), x)
  {
    hide Run, WroteMarker, Links, Removals, Reads;
    LinksMarkNot(p, LINKED, x);
    LinksMarkNot(q, LINKED, x);
    RemovalsMarkNot(p, 6, x);
    ReadsMarkNot(0, 4, x);
    assert NeverMarks(Opening(p), x) && NeverMarks(Withdrawal(p), x);
    assert NeverMarks(Replacement(q), x) && NeverMarks(Ending(q), x);
    assert NeverMarks(Interruption(p, q), x);
    NobodyThere(s, Interruption(p, q), x);
  }

  lemma NobodyThere(s: System, steps: seq<Step>, x: nat)
    requires NeverMarks(steps, x) && (x < |s.publishers| ==> !s.publishers[x].Marked?)
    ensures !WroteMarker(s, steps, x)
  {
    if x < |s.publishers| {
      NoMarker(s, steps, x);
    }
  }

  /** An interrupted publication is accepted: the record is the second publisher's, whose
      manifest was read, which never wrote its marker, and whose directory can never be
      accepted again. */
  lemma UnmarkedPackIsAccepted(s: System, p: nat, q: nat)
    requires Fresh(s, p, q)
    ensures Run(s, Interruption(p, q)) ==
            Two(s, p, q, Removed, Abandoned, Some(Directory(q, Placed(s.attempt, s.payloads[q], LINKED))),
                Accepted(p, RecordFor(s.attempt, s.payloads[q])))
    ensures DecidedAt(s, Interruption(p, q), Turning(p, q), 0) && OwnerAt(s, Interruption(p, q), Turning(p, q), 0) == q
    ensures !WroteMarker(s, Interruption(p, q), q)
    ensures !Acceptable(s.attempt, Placed(s.attempt, s.payloads[q], LINKED))
  {
    hide Run, Placed, Opening, Withdrawal, Replacement, Acceptable, RecordFor, Reads, WroteMarker;
    var before := Opening(p) + Withdrawal(p) + Replacement(q);
    BeforeEnding(s, p, q);
    Ended(s, p, q);
    RunAppend(s, before, Ending(q));
    assert Interruption(p, q)[..Turning(p, q)] == before;
    ReadsBegin(0, 4);
    assert Interruption(p, q)[Turning(p, q)] == Ending(q)[0] == ReadManifest(0);
    OnlyFirstMarks(s, p, q, q);
    VerifiesAsPublished(s.attempt, s.payloads[q]);
  }

  /******* Exactly when an interrupted publication is never taken for a pack *******/

  /** Every manifest that leads to an acceptance is that of a publisher that wrote its marker. */
  ghost predicate OwnersWroteMarkers(s: System) {
    forall steps, k, r :: DecidedAt(s, steps, k, r) ==> WroteMarker(s, steps, OwnerAt(s, steps, k, r))
  }

  /** Every record accepted is that of a publisher that wrote its marker. */
  ghost predicate RecordsWereMarked(s: System) {
    forall steps, r :: AcceptedMarked(s, steps, r)
  }

  ghost predicate AcceptedMarked(s: System, steps: seq<Step>, r: nat) {
    r < |Run(s, steps).readers| && Run(s, steps).readers[r].Accepted? ==>
      exists p: nat :: p < |s.payloads| && WroteMarker(s, steps, p) &&
                       Run(s, steps).readers[r].record == RecordFor(s.attempt, s.payloads[p])
  }

  predicate AllAlike(payloads: seq<Payload>) {
    forall p, q :: 0 <= p < |payloads| && 0 <= q < |payloads| ==> payloads[p] == payloads[q]
  }

  lemma InitialIsFresh(attempt: Id, payloads: seq<Payload>, readers: nat, p: nat, q: nat)
    requires p != q && p < |payloads| && q < |payloads| && readers > 0
    ensures Fresh(Initial(attempt, payloads, readers), p, q)
  {
  }

  /** Whatever publishers and readers do, no unmarked publication is ever accepted exactly when
      there is one publisher at most, or nobody to read. */
  lemma OwnersWroteMarkersExactly(attempt: Id, payloads: seq<Payload>, readers: nat)
    ensures OwnersWroteMarkers(Initial(attempt, payloads, readers)) <==> |payloads| <= 1 || readers == 0
  {
    hide Run, DecidedAt, WroteMarker, Interruption, Turning;
    var s := Initial(attempt, payloads, readers);
    if |payloads| <= 1 || readers == 0 {
      forall steps, k, r | DecidedAt(s, steps, k, r)
        ensures WroteMarker(s, steps, OwnerAt(s, steps, k, r))
      {
        DecidedRecord(s, steps, k, r);
        RunSizes(s, steps);
        var l := AcceptedRecord(attempt, payloads, readers, steps, r);
      }
    } else {
      InitialIsFresh(attempt, payloads, readers, 0, 1);
      UnmarkedPackIsAccepted(s, 0, 1);
    }
  }

  /** Read off the records alone: publishers of one and the same pack cannot be told apart. */
  lemma RecordsWereMarkedExactly(attempt: Id, payloads: seq<Payload>, readers: nat)
    ensures RecordsWereMarked(Initial(attempt, payloads, readers)) <==> AllAlike(payloads) || readers == 0
  {
    hide Run, DecidedAt, WroteMarker, Interruption, Turning, Initial;
    var s := Initial(attempt, payloads, readers);
    InitialParts(attempt, payloads, readers);
    if AllAlike(payloads) || readers == 0 {
      forall steps, r: nat
        ensures AcceptedMarked(s, steps, r)
      {
        RunSizes(s, steps);
        if r < |Run(s, steps).readers| && Run(s, steps).readers[r].Accepted? {
          var k := AcceptedRecord(attempt, payloads, readers, steps, r);
          DecidedRecord(s, steps, k, r);
          assert payloads[OwnerAt(s, steps, k, r)] == payloads[Run(s, steps).readers[r].seen];
        }
      }
    } else {
      var p: nat, q: nat :| p < |payloads| && q < |payloads| && payloads[p] != payloads[q];
      InitialIsFresh(attempt, payloads, readers, p, q);
      UnmarkedPackIsAccepted(s, p, q);
      forall x: nat | x < |payloads| && WroteMarker(s, Interruption(p, q), x)
        ensures x == p
      {
        if x != p {
          OnlyFirstMarks(s, p, q, x);
        }
      }
      RecordsTellPacksApart(attempt, payloads[p], payloads[q]);
      assert !AcceptedMarked(s, Interruption(p, q), 0);
    }
  }

  lemma InitialParts(attempt: Id, payloads: seq<Payload>, readers: nat)
    ensures var s := Initial(attempt, payloads, readers);
            && s.attempt == attempt && s.payloads == payloads && |s.publishers| == |payloads| && |s.readers| == readers
            && forall p :: 0 <= p < |payloads| ==> s.publishers[p] == Preparing
  {
  }
}
