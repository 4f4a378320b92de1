/** Whose record a reader returns, and whether that publisher ever wrote its completion marker. */
module EvidencePackMarkers {
  import opened EvidencePack
  import opened EvidencePackRuns

  /** In the course of the run the publisher stood with its marker in place. */
  predicate WroteMarker(s: System, steps: seq<Step>, p: nat)
    decreases |steps|
  {
    && p < |s.publishers|
    && (s.publishers[p].Marked? || (steps != [] && WroteMarker(Next(s, steps[0]), steps[1..], p)))
  }

  predicate Saw(r: Reader, seen: nat) {
    match r
    case Listed(p) => p == seen
    case Reading(p, _, _, _) => p == seen
    case Accepted(p, _) => p == seen
    case _ => false
  }

  function NowMarked(s: System): set<nat> {
    set p: nat | p < |s.publishers| && s.publishers[p].Marked?
  }

  /** Whoever owns a marker, or was listed by a reader, is known to have written one. */
  ghost predicate Known(s: System, known: set<nat>) {
    && (s.directory.Some? && MARKER in s.directory.value.files ==> s.directory.value.owner in known)
    && forall r, seen :: 0 <= r < |s.readers| && Saw(s.readers[r], seen) ==> seen in known
  }

  lemma PublisherKeepsKnown(s: System, e: Step, known: set<nat>)
    requires Invariant(s) && Known(s, known) && !IsReaderStep(e)
    ensures Known(Next(s, e), known + NowMarked(Next(s, e)))
  {
    hide Content, OwnerFits, ReaderFits;
    if e.p < |s.publishers| {
      assert PublisherFits(s, e.p);
    }
    assert MARKER !in ORDER[..LINKED];
    hide Invariant, Saw;
  }

  lemma ReaderKeepsKnown(s: System, e: Step, known: set<nat>)
    requires Known(s, known) && IsReaderStep(e)
    ensures Known(Next(s, e), known + NowMarked(Next(s, e)))
  {
    assert MARKER in ENTRIES;
  }

  lemma StepKeepsKnown(s: System, e: Step, known: set<nat>)
    requires Invariant(s) && Known(s, known)
    ensures Known(Next(s, e), known + NowMarked(Next(s, e)))
  {
    hide Invariant, Known, Next;
    if IsReaderStep(e) {
      ReaderKeepsKnown(s, e, known);
    } else {
      PublisherKeepsKnown(s, e, known);
    }
  }

  /** A reader only ever lists a publisher that wrote its marker. */
  lemma {:induction false} ListedWroteMarker(s: System, steps: seq<Step>, known: set<nat>, r: nat, seen: nat)
    requires Invariant(s) && Known(s, known)
    requires r < |Run(s, steps).readers| && Saw(Run(s, steps).readers[r], seen)
    ensures seen in known || WroteMarker(s, steps, seen)
    decreases |steps|
  {
    hide Invariant, Next, Saw;
    if steps != [] {
      StepKeepsInvariant(s, steps[0]);
      StepKeepsKnown(s, steps[0], known);
      ListedWroteMarker(Next(s, steps[0]), steps[1..], known + NowMarked(Next(s, steps[0])), r, seen);
      SameSize(s, steps[0]);
    }
  }

  lemma SameSize(s: System, e: Step)
    ensures |Next(s, e).publishers| == |s.publishers| && |Next(s, e).readers| == |s.readers|
    ensures Next(s, e).payloads == s.payloads && Next(s, e).attempt == s.attempt
  {
    hide Content;
  }

  /******* Whose record it is *******/

  /** The reader goes on with the manifest it has, or gives up. */
  predicate Holds(r: Reader, seen: nat, manifest: Bytes) {
    match r
    case Reading(p, m, _, _) => p == seen && m == manifest
    case Accepted(p, record) => p == seen && record.manifest == manifest
    case Rejected => true
    case _ => false
  }

  lemma StepHolds(s: System, e: Step, r: nat, seen: nat, manifest: Bytes)
    requires r < |s.readers| && Holds(s.readers[r], seen, manifest)
    ensures Holds(Next(s, e).readers[r], seen, manifest)
  {
    hide Content;
  }

  lemma {:induction false} RunHolds(s: System, steps: seq<Step>, r: nat, seen: nat, manifest: Bytes)
    requires r < |s.readers| && Holds(s.readers[r], seen, manifest)
    ensures r < |Run(s, steps).readers| && Holds(Run(s, steps).readers[r], seen, manifest)
    ensures Run(s, steps).payloads == s.payloads && Run(s, steps).attempt == s.attempt
    decreases |steps|
  {
    hide Next, Holds;
    if steps != [] {
      SameSize(s, steps[0]);
      StepHolds(s, steps[0], r, seen, manifest);
      RunHolds(Next(s, steps[0]), steps[1..], r, seen, manifest);
    }
  }

  predicate IsRemoved(s: System, p: nat) {
    p < |s.publishers| && s.publishers[p] == Removed
  }

  lemma {:induction false} RemovedForever(s: System, steps: seq<Step>, p: nat)
    requires IsRemoved(s, p)
    ensures IsRemoved(Run(s, steps), p)
    decreases |steps|
  {
    hide Next, IsRemoved;
    if steps != [] {
      RemovedStays(s, steps[0], p);
      RemovedForever(Next(s, steps[0]), steps[1..], p);
    }
  }

  lemma RemovedStays(s: System, e: Step, p: nat)
    requires IsRemoved(s, p)
    ensures IsRemoved(Next(s, e), p)
  {
    hide Content;
  }

  /** At step k of the run the reader, having listed a pack, reads the manifest of whoever owns
      the directory then; and what it accepts in the end is that owner's record. If that is not
      whom it listed, the one it listed has removed its directory. */
  ghost predicate DecidedAt(s: System, steps: seq<Step>, k: nat, r: nat) {
    && k < |steps| && steps[k] == ReadManifest(r)
    && var before, last := Run(s, steps[..k]), Run(s, steps);
       && r < |before.readers| && r < |last.readers| && last.readers[r].Accepted?
       && before.readers[r] == Listed(last.readers[r].seen)
       && before.directory.Some? && before.directory.value.owner < |s.payloads|
       && last.readers[r].record == RecordFor(s.attempt, s.payloads[before.directory.value.owner])
       && (before.directory.value.owner != last.readers[r].seen ==> IsRemoved(last, last.readers[r].seen))
  }

  /** The publisher whose manifest the reader read. */
  ghost function OwnerAt(s: System, steps: seq<Step>, k: nat, r: nat): nat
    requires DecidedAt(s, steps, k, r)
  {
    Run(s, steps[..k]).directory.value.owner
  }

  lemma AcceptedManifest(s: System, r: nat)
    requires Invariant(s) && r < |s.readers| && s.readers[r].Accepted?
    ensures exists q: nat :: q < |s.payloads| && s.readers[r].record == RecordFor(s.attempt, s.payloads[q])
  {
    assert ReaderFits(s, s.readers[r]);
    var q: nat :| ManifestOf(s, s.readers[r].seen, s.readers[r].record.manifest, q) &&
                  s.readers[r].record == RecordFor(s.attempt, s.payloads[q]);
    hide Invariant;
  }

  lemma OthersWereRemoved(s: System, r: nat)
    requires Invariant(s) && r < |s.readers| && s.readers[r].Listed? && s.directory.Some?
    ensures s.directory.value.owner != s.readers[r].seen ==> IsRemoved(s, s.readers[r].seen)
  {
    var seen := s.readers[r].seen;
    assert ReaderFits(s, s.readers[r]);
    assert PublisherFits(s, seen);
    hide Invariant;
  }

  /** What a reader does with its next step before it has a manifest. */
  lemma BeforeManifest(s: System, e: Step, r: nat)
    requires Invariant(s) && r < |s.readers| && (s.readers[r].Beginning? || s.readers[r].Listed?)
    ensures var after := Next(s, e).readers[r];
            || after.Beginning? || after.Listed? || after.Rejected?
            || (&& after.Reading? && e == ReadManifest(r) && s.readers[r] == Listed(after.seen) && s.directory.Some?
                && s.directory.value.owner < |s.payloads|
                && after.manifest == ManifestFor(s.attempt, s.payloads[s.directory.value.owner])
                && (s.directory.value.owner != after.seen ==> IsRemoved(s, after.seen)))
  {
    if e == ReadManifest(r) && s.directory.Some? && s.readers[r].Listed? {
      assert OwnerFits(s, s.directory.value);
      OthersWereRemoved(s, r);
    }
    hide Invariant, OwnerFits, PublisherStep;
    if !IsReaderStep(e) {
      SameReaders(s, e);
    }
  }

  lemma SameReaders(s: System, e: Step)
    requires !IsReaderStep(e)
    ensures Next(s, e).readers == s.readers
  {
    hide Content;
  }

  /** Every accepted record was decided when its manifest was read. */
  lemma {:induction false} SomeStepDecides(s: System, steps: seq<Step>, r: nat) returns (k: nat)
    requires Invariant(s) && r < |s.readers| && (s.readers[r].Beginning? || s.readers[r].Listed?)
    requires r < |Run(s, steps).readers| && Run(s, steps).readers[r].Accepted?
    ensures DecidedAt(s, steps, k, r)
    decreases |steps|
  {
    hide Invariant, Next, Run, DecidedAt;
    if steps == [] {
      RunNothing(s);
      assert false;
    } else {
      var e, rest := steps[0], steps[1..];
      var next := Next(s, e);
      RunFirst(s, steps);
      StepKeepsInvariant(s, e);
      SameSize(s, e);
      BeforeManifest(s, e, r);
      if next.readers[r].Beginning? || next.readers[r].Listed? {
        k := SomeStepDecides(next, rest, r);
        DecidedLater(s, steps, k, r);
        k := k + 1;
      } else {
        RunKeepsInvariant(next, rest);
        AcceptedManifest(Run(next, rest), r);
        if next.readers[r].Rejected? {
          RunHolds(next, rest, r, 0, NoBytes);
          assert false;
        } else {
          k := 0;
          DecidedNow(s, steps, r);
        }
      }
    }
  }

  lemma RunNothing(s: System)
    ensures Run(s, []) == s
  {
  }

  lemma RunFirst(s: System, steps: seq<Step>)
    requires steps != []
    ensures Run(s, steps) == Run(Next(s, steps[0]), steps[1..])
  {
  }

  lemma DecidedLater(s: System, steps: seq<Step>, k: nat, r: nat)
    requires steps != [] && DecidedAt(Next(s, steps[0]), steps[1..], k, r)
    ensures DecidedAt(s, steps, k + 1, r)
  {
    hide Next, Run;
    RunFirst(s, steps);
    RunFirst(s, steps[..k + 1]);
    assert steps[..k + 1][1..] == steps[1..][..k];
    SameSize(s, steps[0]);
  }

  lemma DecidedNow(s: System, steps: seq<Step>, r: nat)
    requires steps != [] && steps[0] == ReadManifest(r) && r < |s.readers| && s.directory.Some?
    requires s.directory.value.owner < |s.payloads|
    requires var next := Next(s, steps[0]).readers;
             && r < |next| && next[r].Reading? && s.readers[r] == Listed(next[r].seen)
             && next[r].manifest == ManifestFor(s.attempt, s.payloads[s.directory.value.owner])
             && (s.directory.value.owner != next[r].seen ==> IsRemoved(s, next[r].seen))
    requires Invariant(Run(s, steps)) && r < |Run(s, steps).readers| && Run(s, steps).readers[r].Accepted?
    ensures DecidedAt(s, steps, 0, r)
  {
    hide Invariant, Next, Run, IsRemoved;
    var next, last := Next(s, steps[0]), Run(s, steps);
    RunFirst(s, steps);
    RunNothing(s);
    SameSize(s, steps[0]);
    RunHolds(next, steps[1..], r, next.readers[r].seen, next.readers[r].manifest);
    AcceptedManifest(last, r);
    assert steps[..0] == [];
    if s.directory.value.owner != next.readers[r].seen {
      RemovedForever(s, steps, next.readers[r].seen);
    }
  }

  /** Whatever races and crashes, what a reader accepts is the record of whoever owned the
      directory when it read the manifest, and the publisher it had listed wrote its marker. So
      it is the listed publisher's record exactly when these two published the same. */
  lemma AcceptedRecord(attempt: Id, payloads: seq<Payload>, readers: nat, steps: seq<Step>, r: nat) returns (k: nat)
    requires r < |Run(Initial(attempt, payloads, readers), steps).readers|
    requires Run(Initial(attempt, payloads, readers), steps).readers[r].Accepted?
    ensures var s := Initial(attempt, payloads, readers);
            var accepted := Run(s, steps).readers[r];
            && DecidedAt(s, steps, k, r)
            && WroteMarker(s, steps, accepted.seen) && accepted.seen < |payloads|
            && (OwnerAt(s, steps, k, r) != accepted.seen ==> IsRemoved(Run(s, steps), accepted.seen))
            && (accepted.record == RecordFor(attempt, payloads[accepted.seen]) <==>
                payloads[OwnerAt(s, steps, k, r)] == payloads[accepted.seen])
  {
    var s := Initial(attempt, payloads, readers);
    InitialInvariant(attempt, payloads, readers);
    assert Known(s, {});
    hide Invariant, Next, Run, Known, DecidedAt;
    RunSizes(s, steps);
    k := SomeStepDecides(s, steps, r);
    var accepted := Run(s, steps).readers[r];
    ListedWroteMarker(s, steps, {}, r, accepted.seen);
    DecidedRecord(s, steps, k, r);
    RecordsTellPacksApart(attempt, payloads[OwnerAt(s, steps, k, r)], payloads[accepted.seen]);
  }

  lemma DecidedRecord(s: System, steps: seq<Step>, k: nat, r: nat)
    requires DecidedAt(s, steps, k, r)
    ensures OwnerAt(s, steps, k, r) < |s.payloads| && r < |Run(s, steps).readers| && Run(s, steps).readers[r].Accepted?
    ensures Run(s, steps).readers[r].record == RecordFor(s.attempt, s.payloads[OwnerAt(s, steps, k, r)])
    ensures OwnerAt(s, steps, k, r) != Run(s, steps).readers[r].seen ==> IsRemoved(Run(s, steps), Run(s, steps).readers[r].seen)
  {
  }

  lemma {:induction false} RunSizes(s: System, steps: seq<Step>)
    ensures |Run(s, steps).readers| == |s.readers| && |Run(s, steps).publishers| == |s.publishers|
    ensures Run(s, steps).payloads == s.payloads && Run(s, steps).attempt == s.attempt
    decreases |steps|
  {
    hide Next;
    if steps != [] {
      SameSize(s, steps[0]);
      RunSizes(Next(s, steps[0]), steps[1..]);
    }
  }
}
