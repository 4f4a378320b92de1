/** The managed path with its guard, and what the two paths answer for one bundle. */
module VerdictPaths {
  import opened Wrappers
  import opened Decimals
  import opened Percentiles
  import opened Evidence
  import opened Verdict
  import opened ImportVerdict

  /** The identities of the one handoff that the managed path supports. */
  datatype Pins = Pins(bundleDigest: Id, runId: Id, profileId: Id, profileSha256: Id, proofSchemaSha256: Id)

  datatype ManagedRefusal = UNSUPPORTED_BINDING

  const MANAGED_ATTEMPTS: nat := 100

  /** What the validation of a managed contract has established. */
  predicate ManagedValidated(c: Criterion) {
    && c.exactAttempts == c.identity.measuredRequests == c.minimumSuccessful == MANAGED_ATTEMPTS
    && c.thresholdNs > 0 && 0 < c.thresholdBasisPoints < 10_000
    && c.reducer == NearestRankV1 && c.population == SuccessfulWithTtft
  }

  /** The exact retrospective handoff, which no producer contract may link. */
  predicate Supported(b: Bundle, pins: Pins) {
    && b.digest == pins.bundleDigest && b.runId == pins.runId
    && b.hasProfileFacts && b.run.profile.profileId == pins.profileId
    && b.run.profile.profileSha256 == pins.profileSha256 && b.run.profile.proofSchemaSha256 == pins.proofSchemaSha256
    && b.contractLink.None?
  }

  function ManagedVerdict(b: Bundle, m: Measurements, c: Criterion): VerdictStatus {
    EvaluateManagedVerdict(m, c, Issues(b, m, c))
  }

  /** The guard comes before any verdict. */
  function ManagedImport(b: Bundle, m: Measurements, c: Criterion, pins: Pins): Result<VerdictStatus, ManagedRefusal> {
    if !Supported(b, pins) then Err(UNSUPPORTED_BINDING) else Ok(ManagedVerdict(b, m, c))
  }

  /** All that the managed path admits for given pins is one bundle of one run and profile. */
  lemma OneHandoffIsAdmitted(b: Bundle, other: Bundle, m: Measurements, c: Criterion, pins: Pins)
    requires ManagedImport(b, m, c, pins).Ok? && ManagedImport(other, m, c, pins).Ok?
    ensures b.digest == other.digest == pins.bundleDigest && b.runId == other.runId == pins.runId
    ensures b.hasProfileFacts && b.contractLink.None?
    ensures b.run.profile.profileId == other.run.profile.profileId == pins.profileId
    ensures b.run.profile.profileSha256 == other.run.profile.profileSha256 == pins.profileSha256
    ensures b.run.profile.proofSchemaSha256 == other.run.profile.proofSchemaSha256 == pins.proofSchemaSha256
  {
  }

  /** The counts alone call for PASS or FAIL. */
  predicate Decided(records: seq<Record>, c: Criterion) {
    || Unreliable(records, c)
    || (c.definition == FirstChoicesEvent && CountStatus(records, SUCCESS) >= c.minimumSuccessful)
  }

  /** The managed verdict, from the bundle and its records. */
  lemma ManagedEndToEnd(records: seq<Record>, b: Bundle, c: Criterion)
    requires records != [] && AllValid(records) && ManagedValidated(c)
    ensures var m := Reduce(records);
            && (ManagedVerdict(b, m, c) == NOT_PROVEN <==> !SameRun(b, m, c) || !Decided(records, c))
            && (ManagedVerdict(b, m, c) == FAIL <==>
                  SameRun(b, m, c) && Decided(records, c) && (Unreliable(records, c) || !FastEnough(records, c)))
  {
    var m := Reduce(records);
    VerdictByCounting(records, c, Issues(b, m, c));
    IssuesMeanMismatch(b, m, c);
    hide Mismatch, DefaultQuotient, NearestRank, SuccessTtfts, FastEnough, Unreliable, EvaluateManagedVerdict;
  }

  /** A managed contract asks for a hundred requests and a hundred successes, so one failed
      request rules out PASS, and the latency rule then never speaks. */
  lemma ManagedHundred(records: seq<Record>, b: Bundle, c: Criterion)
    requires records != [] && AllValid(records) && ManagedValidated(c)
    ensures var m := Reduce(records);
            var clean := m.failed == 0 && c.definition == FirstChoicesEvent;
            && (ManagedVerdict(b, m, c) == PASS <==>
                  SameRun(b, m, c) && clean && CountUnder(SuccessTtfts(records), c.thresholdNs) >= 95)
            && (ManagedVerdict(b, m, c) == FAIL <==>
                  SameRun(b, m, c) && (100 * m.failed >= c.thresholdBasisPoints ||
                                       (clean && CountUnder(SuccessTtfts(records), c.thresholdNs) < 95)))
  {
    ManagedEndToEnd(records, b, c);
    CountsPartition(records);
    hide ManagedVerdict, DefaultQuotient, NearestRank, SuccessTtfts, CountUnder;
  }

  /******* One bundle, two paths *******/

  /** No bundle gets a decided verdict from both paths: an import proves nothing from a bundle
      that no contract links, and the managed path refuses every other. */
  lemma NoBundleIsDecidedTwice(records: seq<Record>, b: Bundle, x: Context, c: Criterion, pins: Pins)
    requires records != [] && AllValid(records) && Validated(x)
    ensures var m := Reduce(records);
            && (b.contractLink.None? ==> Import(b, m, x) == NOT_PROVEN)
            && (b.contractLink.Some? ==> ManagedImport(b, m, c, pins) == Err(UNSUPPORTED_BINDING))
  {
    ContentWorkloadsNeverPass(records, b, x);
    hide Import, ManagedVerdict, Digits, Reduce, FewErrors, ChatEndpoint, ExpectedPrompts;
  }

  /** So the two give one verdict for a bundle exactly when it is the supported handoff and the
      managed path, too, proves nothing: it was not the run asked for, or the counts decide
      nothing. */
  lemma PathsAgreeExactly(records: seq<Record>, b: Bundle, x: Context, c: Criterion, pins: Pins)
    requires records != [] && AllValid(records) && Validated(x) && ManagedValidated(c)
    ensures var m := Reduce(records);
            ManagedImport(b, m, c, pins) == Ok(Import(b, m, x)) <==>
              Supported(b, pins) && (!SameRun(b, m, c) || !Decided(records, c))
  {
    NoBundleIsDecidedTwice(records, b, x, c, pins);
    ManagedEndToEnd(records, b, c);
    hide Import, ManagedVerdict, Digits, Reduce, SameRun, Decided;
  }

  /** Evidence of the wrong size proves nothing on either path. */
  lemma MiscountedIsUnproven(records: seq<Record>, b: Bundle, x: Context, c: Criterion)
    requires records != [] && AllValid(records)
    ensures Validated(x) && |records| != x.requestCount ==> Import(b, Reduce(records), x) == NOT_PROVEN
    ensures ManagedValidated(c) && |records| != c.exactAttempts ==> ManagedVerdict(b, Reduce(records), c) == NOT_PROVEN
  {
    hide Import, ManagedVerdict, Digits, FewErrors, Decided, DefaultQuotient, NearestRank, SuccessTtfts, ChatEndpoint,
         ExpectedPrompts;
    if Validated(x) {
      ContentWorkloadsNeverPass(records, b, x);
    }
    if ManagedValidated(c) {
      ManagedEndToEnd(records, b, c);
    }
  }

  /******* A run that failed throughout *******/

  const FAILURE: Record := Record(FAILED, Some("timeout"), 0, None, [], 0, 0, None, 0)

  function Failures(n: nat): seq<Record> {
    if n == 0 then [] else [FAILURE] + Failures(n - 1)
  }

  lemma {:induction false} FailuresFail(n: nat)
    ensures |Failures(n)| == n && AllValid(Failures(n)) && CountStatus(Failures(n), SUCCESS) == 0
  {
    if n > 0 {
      FailuresFail(n - 1);
      assert Failures(n)[1..] == Failures(n - 1);
    }
  }

  /** A hundred requests, and a managed contract that asks for just that run. */
  const HANDOFF_RUN: Run := Run(Profile(0, 0, 0, 0, 0, 0, 7, 8, 0, 9), 0, 0, 0, "http://127.0.0.1:8000/", 0, 0, 4, 100, 10)

  const HANDOFF_CRITERION: Criterion :=
    Criterion(FirstChoicesEvent, NearestRankV1, SuccessfulWithTtft, 20_000_000, 100, 100, 100, HANDOFF_RUN)

  const HANDOFF_PINS: Pins := Pins(5, 6, 7, 8, 9)

  function Handoff(link: Option<Id>): Bundle {
    Bundle(5, 6, link, HANDOFF_RUN, true, Concurrent, 0, 0, 32, true, [], true)
  }

  /** The handoff whose every request failed: the managed path fails it, and no import proves
      anything from it. */
  lemma FailedHandoffDivides(x: Context)
    requires Validated(x)
    ensures ManagedValidated(HANDOFF_CRITERION)
    ensures |Failures(100)| == 100 && AllValid(Failures(100))
    ensures ManagedImport(Handoff(None), Reduce(Failures(100)), HANDOFF_CRITERION, HANDOFF_PINS) == Ok(FAIL)
    ensures Import(Handoff(None), Reduce(Failures(100)), x) == NOT_PROVEN
  {
    hide ManagedVerdict, Import, Failures, CountStatus, DefaultQuotient, NearestRank, SuccessTtfts, Digits, Validated;
    FailuresFail(100);
    ManagedEndToEnd(Failures(100), Handoff(None), HANDOFF_CRITERION);
    NoBundleIsDecidedTwice(Failures(100), Handoff(None), x, HANDOFF_CRITERION, HANDOFF_PINS);
  }

  /******* The two calculations, apart from any bundle *******/

  /** The two criteria ask the same of the measurements, though not by one clock. */
  predicate SameRequirement(x: ImportCriterion, c: Criterion) {
    && x.minimumAttempts == c.exactAttempts == c.identity.measuredRequests <= MOST_ATTEMPTS
    && Digits(x.errorThreshold.coeff) <= FLOAT_DIGITS
    && SameNumber(x.errorThreshold, Dec(c.thresholdBasisPoints, -4))
  }

  lemma ErrorsAgree(records: seq<Record>, x: ImportCriterion, c: Criterion)
    requires SameRequirement(x, c) && |records| == c.exactAttempts
    ensures FewErrors(records, x) <==> !Unreliable(records, c)
  {
    hide ErrorsBelow, SameNumber, Digits;
    BasisPointsCompareExactly(|records| - CountStatus(records, SUCCESS), x.errorThreshold, c.thresholdBasisPoints, |records|);
  }

  /** Given measurements and codes, and no bundle: with its clock withheld, the import calculation
      agrees with the managed one exactly when too many errors find both open or both closed, or
      few errors leave the managed one without a latency to judge. */
  lemma CalculationsAgree(records: seq<Record>, x: ImportCriterion, issues: set<ImportCode>, c: Criterion, codes: set<Code>)
    requires records != [] && AllValid(records) && SameRequirement(x, c) && |records| == c.exactAttempts
    requires TTFT_DEFINITION_MISMATCH in issues
    ensures EvaluateContract(Reduce(records), x, issues) == EvaluateManagedVerdict(Reduce(records), c, codes) <==>
            if Unreliable(records, c) then General(issues) <==> !(codes <= TTFT_ONLY)
            else !(codes <= TTFT_ONLY) || !LatencyProvable(records, c, codes)
  {
    ErrorsAgree(records, x, c);
    ImportByCounting(records, x, issues);
    VerdictByCounting(records, c, codes);
    hide EvaluateContract, EvaluateManagedVerdict, Reduce, FewErrors, Unreliable, FastEnough, General, TtftBound, ManyUnder, Digits,
         SameNumber;
  }
}
