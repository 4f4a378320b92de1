/** Publishers and readers of one attempt racing step by step, any of which may crash. */
module EvidencePackRuns {
  import opened Wrappers
  import opened EvidencePack

  /** The final directory, with the publisher that made it. */
  datatype Directory = Directory(owner: nat, files: Files)

  datatype Publisher =
    | Preparing
    | Linking(done: nat)
    | Marked
    | Cleaning
    | Published
    | Kept
    | Removed
    | Lost
    | Abandoned

  datatype Reader =
    | Beginning
    | Listed(seen: nat)
    | Reading(seen: nat, manifest: Bytes, done: nat, bytes: seq<Bytes>)
    | Accepted(seen: nat, record: Publication)
    | Rejected

  datatype System = System(
    attempt: Id, payloads: seq<Payload>, publishers: seq<Publisher>, directory: Option<Directory>, readers: seq<Reader>)

  datatype Step =
    | Claim(p: nat)
    | Link(p: nat)
    | Mark(p: nat)
    | Return(p: nat, synchronized: bool)
    | Fail(p: nat)
    | RemoveFile(p: nat, e: Entry)
    | RemoveDirectory(p: nat)
    | LeaveRest(p: nat)
    | Crash(p: nat)
    | List(r: nat)
    | ReadManifest(r: nat)
    | ReadArtifact(r: nat)
    | Conclude(r: nat)
    | Reject(r: nat)

  function To(s: System, p: nat, state: Publisher): System
    requires p < |s.publishers|
  {
    s.(publishers := s.publishers[p := state])
  }

  function ReaderTo(s: System, r: nat, state: Reader): System
    requires r < |s.readers|
  {
    s.(readers := s.readers[r := state])
  }

  predicate Owns(s: System, p: nat) {
    s.directory.Some? && s.directory.value.owner == p
  }

  function WithFiles(s: System, files: Files): System
    requires s.directory.Some?
  {
    s.(directory := Some(s.directory.value.(files := files)))
  }

  /** One step of a publisher. Linking refuses an entry that exists; cleaning removes entries in
      any order, then the directory, and may stop early. */
  function PublisherStep(s: System, e: Step, p: nat): System
    requires p < |s.publishers| && p < |s.payloads|
  {
    var state := s.publishers[p];
    match e
    case Claim(_) =>
      if !state.Preparing? then s
      else if s.directory.Some? then To(s, p, Lost)
      else To(s.(directory := Some(Directory(p, map[]))), p, Linking(0))
    case Link(_) =>
      if !state.Linking? || state.done >= LINKED || s.directory.None? then s
      else if ORDER[state.done] in s.directory.value.files then To(s, p, Cleaning)
      else
        var entry := ORDER[state.done];
        To(WithFiles(s, s.directory.value.files[entry := Content(s.attempt, s.payloads[p], entry)]), p, Linking(state.done + 1))
    case Mark(_) =>
      if state != Linking(LINKED) || s.directory.None? then s
      else To(WithFiles(s, s.directory.value.files[MARKER := NoBytes]), p, Marked)
    case Return(_, synchronized) => if !state.Marked? then s else To(s, p, if synchronized then Published else Kept)
    case Fail(_) =>
      if state.Preparing? then To(s, p, Lost) else if state.Linking? || state.Marked? then To(s, p, Cleaning) else s
    case RemoveFile(_, entry) =>
      if state.Cleaning? && s.directory.Some? then WithFiles(s, s.directory.value.files - {entry}) else s
    case RemoveDirectory(_) =>
      if state.Cleaning? && s.directory.Some? && s.directory.value.files == map[] then To(s.(directory := None), p, Removed) else s
    case LeaveRest(_) => if state.Cleaning? then To(s, p, Abandoned) else s
    case Crash(_) =>
      if state.Preparing? then To(s, p, Lost)
      else if state.Linking? || state.Marked? || state.Cleaning? then To(s, p, Abandoned)
      else s
    case _ => s
  }

  /** One step of a reader: each looks at the directory of that moment. */
  function ReaderStep(s: System, e: Step, r: nat): System
    requires r < |s.readers|
  {
    var state := s.readers[r];
    match e
    case List(_) =>
      if !state.Beginning? then s
      else if s.directory.Some? && s.directory.value.files.Keys == ENTRIES then ReaderTo(s, r, Listed(s.directory.value.owner))
      else ReaderTo(s, r, Rejected)
    case ReadManifest(_) =>
      if !state.Listed? then s
      else if s.directory.None? || MANIFEST !in s.directory.value.files then ReaderTo(s, r, Rejected)
      else
        var manifest := s.directory.value.files[MANIFEST];
        if manifest.ManifestBytes? && manifest.attempt == s.attempt then ReaderTo(s, r, Reading(state.seen, manifest, 0, []))
        else ReaderTo(s, r, Rejected)
    case ReadArtifact(_) =>
      if !state.Reading? || !state.manifest.ManifestBytes? || state.done >= |ARTIFACTS| then s
      else
        var entry := File(ARTIFACTS[state.done]);
        if s.directory.None? || entry !in s.directory.value.files then ReaderTo(s, r, Rejected)
        else if s.directory.value.files[entry] != DigestOf(state.manifest.digests, ARTIFACTS[state.done])
        then ReaderTo(s, r, Rejected)
        else ReaderTo(s, r, state.(done := state.done + 1, bytes := state.bytes + [s.directory.value.files[entry]]))
    case Conclude(_) =>
      if !state.Reading? || state.done != |ARTIFACTS| || |state.bytes| != |ARTIFACTS| then s
      else if Bound(state.bytes[0], state.bytes[1], state.bytes[2])
      then ReaderTo(s, r, Accepted(state.seen, Publication(s.attempt, state.manifest, state.bytes[3])))
      else ReaderTo(s, r, Rejected)
    case Reject(_) => if state.Accepted? then s else ReaderTo(s, r, Rejected)
    case _ => s
  }

  predicate IsReaderStep(e: Step) {
    e.List? || e.ReadManifest? || e.ReadArtifact? || e.Conclude? || e.Reject?
  }

  function Next(s: System, e: Step): System {
    if IsReaderStep(e) then
      if e.r < |s.readers| then ReaderStep(s, e, e.r) else s
    else if e.p < |s.publishers| && e.p < |s.payloads| then PublisherStep(s, e, e.p)
    else s
  }

  /** A publication may fail, or die, at any moment until it returns: failing it cleans up what it
      claimed, dying it leaves all as it is. */
  lemma MayEndAnyTime(s: System, p: nat)
    requires p < |s.publishers| && p < |s.payloads|
    ensures var before, failed, dead := s.publishers[p], Next(s, Fail(p)), Next(s, Crash(p));
            && failed == To(s, p, failed.publishers[p]) && dead == To(s, p, dead.publishers[p])
            && (before.Preparing? ==> failed.publishers[p] == dead.publishers[p] == Lost)
            && (before.Linking? || before.Marked? ==> failed.publishers[p] == Cleaning)
            && (before.Linking? || before.Marked? || before.Cleaning? ==> dead.publishers[p] == Abandoned)
            && (before.Cleaning? ==> Next(s, LeaveRest(p)) == To(s, p, Abandoned))
            && (before.Published? || before.Kept? || before.Removed? || before.Lost? || before.Abandoned? ==>
                  failed.publishers[p] == dead.publishers[p] == before)
  {
    assert s.publishers[p := s.publishers[p]] == s.publishers;
  }

  /** A reader may refuse until it has accepted, and its answer is final. */
  lemma AnswerIsFinal(s: System, e: Step, r: nat)
    requires r < |s.readers|
    ensures Next(s, Reject(r)) == if s.readers[r].Accepted? then s else ReaderTo(s, r, Rejected)
    ensures |Next(s, e).readers| == |s.readers|
    ensures s.readers[r].Accepted? || s.readers[r].Rejected? ==> Next(s, e).readers[r] == s.readers[r]
  {
    hide Content, Bound, DigestOf;
  }

  /** The directory appears empty, at a claim, and goes when it is empty again, by the hand of a
      publisher that is cleaning up; the files in between are linked, marked or removed. */
  lemma DirectoryComesAndGoesEmpty(s: System, e: Step)
    ensures s.directory.None? && Next(s, e).directory.Some? ==> e.Claim? && Next(s, e).directory.value == Directory(e.p, map[])
    ensures s.directory.Some? && Next(s, e).directory.None? ==>
              s.directory.value.files == map[] && e.RemoveDirectory? && e.p < |s.publishers| && s.publishers[e.p] == Cleaning
    ensures s.directory.Some? && Next(s, e).directory.Some? && Next(s, e) != s && !e.Link? && !e.Mark? && !e.RemoveFile? ==>
              Next(s, e).directory == s.directory
  {
    hide Content, Bound, DigestOf;
  }

  /******* Invariant *******/

  /** Every file is the owner's. */
  predicate Own(attempt: Id, p: Payload, files: Files) {
    forall e :: e in files ==> e in ENTRIES && files[e] == Content(attempt, p, e)
  }

  function Linked(n: nat): set<Entry>
    requires n <= |ORDER|
  {
    set e | e in ORDER[..n]
  }

  /** The directory fits the state of the publisher that owns it. */
  predicate OwnerFits(s: System, d: Directory) {
    && d.owner < |s.publishers| && d.owner < |s.payloads|
    && Own(s.attempt, s.payloads[d.owner], d.files)
    && match s.publishers[d.owner]
       case Linking(done) => done <= LINKED && d.files.Keys == Linked(done)
       case Marked => d.files.Keys == ENTRIES
       case Published => d.files.Keys == ENTRIES
       case Kept => d.files.Keys == ENTRIES
       case Cleaning => true
       case Abandoned => true
       case _ => false
  }

  /** A publisher that claimed the final directory, and has not removed it, owns it. */
  predicate PublisherFits(s: System, p: nat)
    requires p < |s.publishers|
  {
    !(s.publishers[p].Preparing? || s.publishers[p].Removed? || s.publishers[p].Lost?) ==> Owns(s, p)
  }

  /** Its pack was complete when it was seen: it is complete still, or its publisher has failed. */
  predicate WasComplete(s: System, seen: nat) {
    && seen < |s.publishers| && seen < |s.payloads|
    && match s.publishers[seen]
       case Marked => true
       case Published => true
       case Kept => true
       case Cleaning => true
       case Removed => true
       case Abandoned => true
       case _ => false
  }

  /** The manifest of publisher q, who is the one seen unless that one's directory is gone. */
  predicate ManifestOf(s: System, seen: nat, manifest: Bytes, q: nat) {
    && q < |s.payloads| && manifest == ManifestFor(s.attempt, s.payloads[q])
    && (q != seen ==> seen < |s.publishers| && s.publishers[seen] == Removed)
  }

  ghost predicate ReaderFits(s: System, r: Reader) {
    match r
    case Listed(seen) => WasComplete(s, seen)
    case Reading(seen, manifest, done, bytes) =>
      && WasComplete(s, seen) && manifest.ManifestBytes? && done <= |ARTIFACTS| && |bytes| == done
      && (exists q: nat :: ManifestOf(s, seen, manifest, q))
      && forall k :: 0 <= k < done ==> bytes[k] == DigestOf(manifest.digests, ARTIFACTS[k])
    case Accepted(seen, record) =>
      && WasComplete(s, seen)
      && exists q: nat :: ManifestOf(s, seen, record.manifest, q) && record == RecordFor(s.attempt, s.payloads[q])
    case _ => true
  }

  ghost predicate Invariant(s: System) {
    && |s.publishers| == |s.payloads|
    && (s.directory.Some? ==> OwnerFits(s, s.directory.value))
    && (forall p: nat :: p < |s.publishers| ==> PublisherFits(s, p))
    && (forall r :: 0 <= r < |s.readers| ==> ReaderFits(s, s.readers[r]))
  }

  /******* Every step keeps it *******/

  /** Publishers only move forward. */
  lemma PublishersProgress(s: System, e: Step, p: nat, seen: nat)
    requires p < |s.publishers| == |s.payloads|
    ensures var s' := PublisherStep(s, e, p);
            && s'.attempt == s.attempt && s'.payloads == s.payloads && s'.readers == s.readers && |s'.publishers| == |s.publishers|
            && (WasComplete(s, seen) ==> WasComplete(s', seen))
            && (seen < |s.publishers| && s.publishers[seen] == Removed ==> s'.publishers[seen] == Removed)
  {
    hide Content;
  }

  lemma ReadersStillFit(s: System, s': System, r: Reader)
    requires ReaderFits(s, r) && s'.attempt == s.attempt && s'.payloads == s.payloads && |s'.publishers| == |s.publishers|
    requires forall seen :: WasComplete(s, seen) ==> WasComplete(s', seen)
    requires forall seen: nat :: seen < |s.publishers| && s.publishers[seen] == Removed ==> s'.publishers[seen] == Removed
    ensures ReaderFits(s', r)
  {
    hide WasComplete;
    match r
    case Reading(seen, manifest, done, bytes) =>
      var q: nat :| ManifestOf(s, seen, manifest, q);
      assert ManifestOf(s', seen, manifest, q);
    case Accepted(seen, record) =>
      var q: nat :| ManifestOf(s, seen, record.manifest, q) && record == RecordFor(s.attempt, s.payloads[q]);
      assert ManifestOf(s', seen, record.manifest, q);
    case _ =>
  }

  /** Whoever is at work on the final directory is alone in it. */
  lemma OthersAreElsewhere(s: System, p: nat, q: nat)
    requires Invariant(s) && p < |s.publishers| && q < |s.publishers| && p != q && Owns(s, p)
    ensures s.publishers[q].Preparing? || s.publishers[q].Removed? || s.publishers[q].Lost?
  {
    assert PublisherFits(s, q);
  }

  lemma NextEntry(done: nat)
    requires done < |ORDER|
    ensures Linked(done + 1) == Linked(done) + {ORDER[done]}
    ensures ORDER[done] in ENTRIES && ORDER[done] !in Linked(done)
  {
    assert ORDER[..done + 1] == ORDER[..done] + [ORDER[done]];
  }

  lemma AllLinked()
    ensures Linked(LINKED) + {MARKER} == ENTRIES && Linked(0) == {}
  {
    assert ORDER[..5] == [File(CONTRACT), File(CONFIRMATION), File(EVIDENCE), File(PACKET), MANIFEST];
  }

  lemma LinkKeepsDirectory(s: System, p: nat)
    requires Invariant(s) && p < |s.publishers| && s.publishers[p].Linking?
    ensures var s' := PublisherStep(s, Link(p), p); s'.directory.Some? ==> OwnerFits(s', s'.directory.value)
  {
    hide Content, Invariant, Linked;
    Fitting(s, p);
    LinkingOwns(s, p);
    NextEntry(s.publishers[p].done);
    hide PublisherFits;
  }

  lemma Fitting(s: System, p: nat)
    requires Invariant(s) && p < |s.publishers|
    ensures |s.publishers| == |s.payloads| && PublisherFits(s, p) && (s.directory.Some? ==> OwnerFits(s, s.directory.value))
  {
    hide PublisherFits, OwnerFits, ReaderFits;
  }

  lemma LinkingOwns(s: System, p: nat)
    requires p < |s.publishers| && PublisherFits(s, p) && (s.directory.Some? ==> OwnerFits(s, s.directory.value))
    requires s.publishers[p].Linking?
    ensures Owns(s, p) && s.publishers[p].done <= LINKED && s.directory.value.files.Keys == Linked(s.publishers[p].done)
  {
    hide Own, Linked;
  }

  lemma MarkKeepsDirectory(s: System, p: nat)
    requires Invariant(s) && p < |s.publishers| && s.publishers[p] == Linking(LINKED)
    ensures var s' := PublisherStep(s, Mark(p), p); s'.directory.Some? && OwnerFits(s', s'.directory.value)
  {
    assert PublisherFits(s, p) && OwnerFits(s, s.directory.value);
    MarkerIsEmpty(s.attempt, s.payloads[p]);
    hide Content, Invariant, PublisherFits;
    AllLinked();
    hide Linked;
    var files := s.directory.value.files;
    assert files.Keys == Linked(LINKED);
    assert files[MARKER := NoBytes].Keys == files.Keys + {MARKER};
  }

  lemma MarkerIsEmpty(attempt: Id, p: Payload)
    ensures Content(attempt, p, MARKER) == NoBytes
  {
  }

  lemma StepKeepsDirectory(s: System, e: Step, p: nat)
    requires Invariant(s) && p < |s.publishers|
    ensures var s' := PublisherStep(s, e, p); s'.directory.Some? ==> OwnerFits(s', s'.directory.value)
  {
    hide Content, Invariant, Linked;
    Fitting(s, p);
    if e.Link? && s.publishers[p].Linking? {
      SameStep(s, e, Link(p), p);
      LinkKeepsDirectory(s, p);
    } else if e.Mark? && s.publishers[p] == Linking(LINKED) {
      SameStep(s, e, Mark(p), p);
      MarkKeepsDirectory(s, p);
    } else {
      AllLinked();
    }
  }

  lemma SameStep(s: System, e: Step, f: Step, p: nat)
    requires p < |s.publishers| && p < |s.payloads| && ((e.Link? && f.Link?) || (e.Mark? && f.Mark?))
    ensures PublisherStep(s, e, p) == PublisherStep(s, f, p)
  {
    hide Content;
  }

  lemma StepKeepsPublishers(s: System, e: Step, p: nat, q: nat)
    requires Invariant(s) && p < |s.publishers| && q < |s.publishers|
    ensures PublisherFits(PublisherStep(s, e, p), q)
  {
    assert PublisherFits(s, p) && PublisherFits(s, q);
    if Owns(s, p) && q != p {
      OthersAreElsewhere(s, p, q);
    }
    hide Content, Invariant, OwnerFits;
  }

  lemma PublisherKeeps(s: System, e: Step, p: nat)
    requires Invariant(s) && p < |s.publishers|
    ensures Invariant(PublisherStep(s, e, p))
  {
    var s' := PublisherStep(s, e, p);
    StepKeepsDirectory(s, e, p);
    forall seen: nat
      ensures WasComplete(s, seen) ==> WasComplete(s', seen)
      ensures seen < |s.publishers| && s.publishers[seen] == Removed ==> s'.publishers[seen] == Removed
    {
      PublishersProgress(s, e, p, seen);
    }
    PublishersProgress(s, e, p, 0);
    hide PublisherStep, OwnerFits;
    forall q: nat | q < |s.publishers|
      ensures PublisherFits(s', q)
    {
      StepKeepsPublishers(s, e, p, q);
    }
    hide PublisherFits;
    forall r | 0 <= r < |s.readers|
      ensures ReaderFits(s', s.readers[r])
    {
      ReadersStillFit(s, s', s.readers[r]);
    }
  }

  /** The manifest in the directory is its owner's; and if that is not whom the reader saw, the
      one it saw has removed its directory. */
  lemma ManifestIsOwners(s: System, seen: nat)
    requires Invariant(s) && s.directory.Some? && MANIFEST in s.directory.value.files && WasComplete(s, seen)
    ensures ManifestOf(s, seen, s.directory.value.files[MANIFEST], s.directory.value.owner)
  {
    var d := s.directory.value;
    assert OwnerFits(s, d) && PublisherFits(s, seen);
    assert d.files[MANIFEST] == Content(s.attempt, s.payloads[d.owner], MANIFEST);
  }

  lemma ListedWasComplete(s: System)
    requires Invariant(s) && s.directory.Some? && s.directory.value.files.Keys == ENTRIES
    ensures WasComplete(s, s.directory.value.owner)
  {
    var d := s.directory.value;
    assert OwnerFits(s, d) && MARKER in d.files;
    if s.publishers[d.owner].Linking? {
      MarkerIsLast(s.publishers[d.owner].done);
    }
  }

  lemma ReaderKeeps(s: System, e: Step, r: nat)
    requires Invariant(s) && r < |s.readers|
    ensures Invariant(ReaderStep(s, e, r))
  {
    var s' := ReaderStep(s, e, r);
    assert ReaderFits(s, s.readers[r]);
    if s' != s {
      assert ReaderFits(s', s'.readers[r]) by {
        ReaderAdvances(s, e, r);
      }
      assert s' == ReaderTo(s, r, s'.readers[r]);
      hide ReaderStep, Own;
      forall p: nat | p < |s.publishers|
        ensures PublisherFits(s', p)
      {
        assert PublisherFits(s, p);
      }
      forall q | 0 <= q < |s.readers| && q != r
        ensures ReaderFits(s', s.readers[q])
      {
        ReadersStillFit(s, s', s.readers[q]);
      }
    }
  }

  lemma ReaderAdvances(s: System, e: Step, r: nat)
    requires Invariant(s) && r < |s.readers| && ReaderStep(s, e, r) != s
    ensures ReaderFits(ReaderStep(s, e, r), ReaderStep(s, e, r).readers[r])
  {
    var state := s.readers[r];
    var s' := ReaderStep(s, e, r);
    assert ReaderFits(s, state);
    if e.List? && s.directory.Some? && s.directory.value.files.Keys == ENTRIES {
      ListedWasComplete(s);
    } else if e.ReadManifest? && s'.readers[r].Reading? {
      ManifestIsOwners(s, state.seen);
      assert ManifestOf(s', state.seen, s'.readers[r].manifest, s.directory.value.owner);
    } else if e.ReadArtifact? && s'.readers[r].Reading? {
      var q: nat :| ManifestOf(s, state.seen, state.manifest, q);
      assert ManifestOf(s', state.seen, state.manifest, q);
    } else if e.Conclude? && s'.readers[r].Accepted? {
      var q: nat :| ManifestOf(s, state.seen, state.manifest, q);
      assert ManifestOf(s', state.seen, state.manifest, q);
      assert ARTIFACTS[3] == PACKET;
      assert state.bytes[3] == DigestOf(state.manifest.digests, ARTIFACTS[3]);
    }
    hide Invariant, OwnerFits, Own;
  }

  lemma StepKeepsInvariant(s: System, e: Step)
    requires Invariant(s)
    ensures Invariant(Next(s, e))
  {
    hide Invariant, PublisherStep, ReaderStep;
    assert |s.publishers| == |s.payloads| by {
      SameCount(s);
    }
    if IsReaderStep(e) {
      if e.r < |s.readers| {
        ReaderKeeps(s, e, e.r);
      }
    } else if e.p < |s.publishers| {
      PublisherKeeps(s, e, e.p);
    }
  }

  lemma SameCount(s: System)
    requires Invariant(s)
    ensures |s.publishers| == |s.payloads|
  {
  }

  /******* What publishers and readers can rely on *******/

  function Initial(attempt: Id, payloads: seq<Payload>, readers: nat): System {
    System(attempt, payloads, seq(|payloads|, _ => Preparing), None, seq(readers, _ => Beginning))
  }

  function Run(s: System, steps: seq<Step>): System
    decreases |steps|
  {
    if steps == [] then s else Run(Next(s, steps[0]), steps[1..])
  }

  lemma {:induction false} RunKeepsInvariant(s: System, steps: seq<Step>)
    requires Invariant(s)
    ensures Invariant(Run(s, steps))
    decreases |steps|
  {
    hide Invariant, Next;
    if steps != [] {
      StepKeepsInvariant(s, steps[0]);
      RunKeepsInvariant(Next(s, steps[0]), steps[1..]);
    }
  }

  lemma InitialInvariant(attempt: Id, payloads: seq<Payload>, readers: nat)
    ensures Invariant(Initial(attempt, payloads, readers))
  {
  }

  /** The entry set is whole only when the directory is the complete pack of its owner. */
  lemma ListingMeansComplete(s: System)
    requires Invariant(s) && s.directory.Some? && s.directory.value.files.Keys == ENTRIES
    ensures s.directory.value.owner < |s.payloads|
    ensures s.directory.value.files == Placed(s.attempt, s.payloads[s.directory.value.owner], 6)
  {
    var d := s.directory.value;
    assert OwnerFits(s, d);
    AllPlaced(s.attempt, s.payloads[d.owner]);
    hide Content, Invariant;
  }

  /** A publisher that does not own the directory never changes it. */
  lemma LosersTouchNothing(s: System, e: Step)
    requires Invariant(s) && s.directory.Some? && !IsReaderStep(e) && e.p != s.directory.value.owner
    ensures Next(s, e).directory == s.directory
  {
    if e.p < |s.publishers| {
      assert PublisherFits(s, e.p);
    }
    hide Invariant;
  }

  ghost predicate Stands(s: System, p: nat) {
    && p < |s.publishers| && p < |s.payloads| && (s.publishers[p].Published? || s.publishers[p].Kept?)
    && s.directory == Some(Directory(p, Placed(s.attempt, s.payloads[p], 6)))
  }

  lemma PublishedStands(s: System, p: nat)
    requires Invariant(s) && p < |s.publishers| && (s.publishers[p].Published? || s.publishers[p].Kept?)
    ensures Stands(s, p)
  {
    assert PublisherFits(s, p) && OwnerFits(s, s.directory.value);
    ListingMeansComplete(s);
  }

  lemma StepKeepsStanding(s: System, p: nat, e: Step)
    requires Invariant(s) && Stands(s, p)
    ensures Stands(Next(s, e), p)
  {
    hide Content, Placed, OwnerFits, ReaderFits;
    if !IsReaderStep(e) && e.p < |s.publishers| {
      assert PublisherFits(s, e.p);
    }
    hide Invariant;
  }

  /** Once a publication succeeded its directory stands, whole and unchanged, for ever. */
  lemma {:induction false} PublishedForever(s: System, p: nat, steps: seq<Step>)
    requires Invariant(s) && Stands(s, p)
    ensures Stands(Run(s, steps), p)
    decreases |steps|
  {
    hide Invariant, Next, Stands;
    if steps != [] {
      StepKeepsInvariant(s, steps[0]);
      StepKeepsStanding(s, p, steps[0]);
      PublishedForever(Next(s, steps[0]), p, steps[1..]);
    }
  }

  /** At most one publication succeeds. */
  lemma OneWinner(s: System, p: nat, q: nat)
    requires Invariant(s) && p < |s.publishers| && q < |s.publishers| && s.publishers[p].Published? && s.publishers[q].Published?
    ensures p == q
  {
    assert PublisherFits(s, p) && PublisherFits(s, q);
    hide Invariant;
  }

  /** A reader that saw the pack of a publisher whose directory stands returns that one's record. */
  lemma StandingPackVerifies(s: System, p: nat, r: nat)
    requires Invariant(s) && Stands(s, p) && r < |s.readers| && s.readers[r].Accepted? && s.readers[r].seen == p
    ensures s.readers[r].record == RecordFor(s.attempt, s.payloads[p])
  {
    assert ReaderFits(s, s.readers[r]);
    hide Invariant, Placed;
  }
}
