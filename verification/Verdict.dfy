/** Three-valued acceptance over recalculated measurements. */
module Verdict {
  import opened Wrappers
  import opened Decimals
  import opened Percentiles
  import opened Evidence

  datatype VerdictStatus = PASS | FAIL | NOT_PROVEN

  /** Applicability codes of the managed path. The first ten concern the whole evidence; the
      last four only withhold the latency rule. */
  datatype Code =
    | EVIDENCE_PROFILE_MISMATCH
    | TARGET_MODEL_MISMATCH
    | MODEL_REVISION_MISMATCH
    | TOKENIZER_REVISION_MISMATCH
    | ENDPOINT_MISMATCH
    | REQUEST_PLAN_MISMATCH
    | WORKLOAD_MISMATCH
    | CONFIGURED_CONCURRENCY_MISMATCH
    | REQUEST_POPULATION_MISMATCH
    | WARMUP_POPULATION_MISMATCH
    | METRIC_DEFINITION_MISMATCH
    | REDUCER_MISMATCH
    | LATENCY_POPULATION_MISMATCH
    | SUCCESSFUL_SAMPLE_SHORTFALL

  const TTFT_ONLY: set<Code> :=
    {METRIC_DEFINITION_MISMATCH, REDUCER_MISMATCH, LATENCY_POPULATION_MISMATCH, SUCCESSFUL_SAMPLE_SHORTFALL}

  const CODES: seq<Code> :=
    [EVIDENCE_PROFILE_MISMATCH, TARGET_MODEL_MISMATCH, MODEL_REVISION_MISMATCH, TOKENIZER_REVISION_MISMATCH,
     ENDPOINT_MISMATCH, REQUEST_PLAN_MISMATCH, WORKLOAD_MISMATCH, CONFIGURED_CONCURRENCY_MISMATCH,
     REQUEST_POPULATION_MISMATCH, WARMUP_POPULATION_MISMATCH, METRIC_DEFINITION_MISMATCH, REDUCER_MISMATCH,
     LATENCY_POPULATION_MISMATCH, SUCCESSFUL_SAMPLE_SHORTFALL]

  /** Names, revisions and digests, compared only for equality. */
  type Id = int

  datatype Traffic = Concurrent | OtherTraffic

  /** Producer, adapter and profile identity of one run. */
  datatype Profile = Profile(
    evidenceSchema: Id, producerName: Id, producerVersion: Id,
    adapter: Id, adapterVersion: Id, nativeSchema: Id,
    profileId: Id, profileSha256: Id, proofSchemaId: Id, proofSchemaSha256: Id)

  /** What was run: the same shape for what a criterion asks and what a bundle shows. */
  datatype Run = Run(
    profile: Profile,
    model: Id, modelRevision: Id, tokenizerRevision: Id, endpoint: string,
    requestPlanDigest: Id, workloadDigest: Id,
    concurrency: int, measuredRequests: int, warmupRequests: int)

  /** A verified bundle, as far as the two verdict paths look at it. Its descriptor and its
      resolved specification carry the same contract link, if any. */
  datatype Bundle = Bundle(
    digest: Id, runId: Id, contractLink: Option<Id>,
    run: Run, hasProfileFacts: bool, traffic: Traffic,
    executionAdapter: Id, executionAdapterVersion: Id,
    outputTokens: int, temperatureIsZero: bool, promptDigests: seq<Id>, environmentComplete: bool)

  datatype Criterion = Criterion(
    definition: Definition, reducer: Reducer, population: Population,
    thresholdNs: int, minimumSuccessful: nat,
    thresholdBasisPoints: nat, exactAttempts: nat, identity: Run)

  datatype Reducer = NearestRankV1 | OtherReducer

  datatype Population = SuccessfulWithTtft | OtherPopulation

  /******* Applicability *******/

  predicate Mismatch(code: Code, b: Bundle, m: Measurements, c: Criterion) {
    var want, got := c.identity, b.run;
    match code
    case EVIDENCE_PROFILE_MISMATCH =>
      || got.profile != want.profile || !b.hasProfileFacts
      || b.executionAdapter != want.profile.adapter || b.executionAdapterVersion != want.profile.adapterVersion
    case TARGET_MODEL_MISMATCH => got.model != want.model
    case MODEL_REVISION_MISMATCH => got.modelRevision != want.modelRevision
    case TOKENIZER_REVISION_MISMATCH => got.tokenizerRevision != want.tokenizerRevision
    case ENDPOINT_MISMATCH => got.endpoint != want.endpoint
    case REQUEST_PLAN_MISMATCH => got.requestPlanDigest != want.requestPlanDigest
    case WORKLOAD_MISMATCH => got.workloadDigest != want.workloadDigest
    case CONFIGURED_CONCURRENCY_MISMATCH => b.traffic != Concurrent || got.concurrency != want.concurrency
    case REQUEST_POPULATION_MISMATCH => got.measuredRequests != want.measuredRequests || m.attempted != want.measuredRequests
    case WARMUP_POPULATION_MISMATCH => got.warmupRequests != want.warmupRequests
    case METRIC_DEFINITION_MISMATCH => m.ttftDefinition != c.definition
    case REDUCER_MISMATCH => c.reducer != NearestRankV1
    case LATENCY_POPULATION_MISMATCH => c.population != SuccessfulWithTtft
    case SUCCESSFUL_SAMPLE_SHORTFALL => m.successful < c.minimumSuccessful
  }

  function Issues(b: Bundle, m: Measurements, c: Criterion): set<Code> {
    set code: Code | Mismatch(code, b, m, c)
  }

  lemma EveryCode(code: Code)
    ensures code in CODES
  {
    assert CODES[0] == EVIDENCE_PROFILE_MISMATCH && CODES[1] == TARGET_MODEL_MISMATCH && CODES[2] == MODEL_REVISION_MISMATCH;
    assert CODES[3] == TOKENIZER_REVISION_MISMATCH && CODES[4] == ENDPOINT_MISMATCH && CODES[5] == REQUEST_PLAN_MISMATCH;
    assert CODES[6] == WORKLOAD_MISMATCH && CODES[7] == CONFIGURED_CONCURRENCY_MISMATCH;
    assert CODES[8] == REQUEST_POPULATION_MISMATCH && CODES[9] == WARMUP_POPULATION_MISMATCH;
    assert CODES[10] == METRIC_DEFINITION_MISMATCH && CODES[11] == REDUCER_MISMATCH;
    assert CODES[12] == LATENCY_POPULATION_MISMATCH && CODES[13] == SUCCESSFUL_SAMPLE_SHORTFALL;
  }

  /** Collects the mismatches in a set and answers them in canonical order. */
  method EvaluateApplicability(b: Bundle, m: Measurements, c: Criterion) returns (canonical: seq<Code>)
    ensures forall code :: code in canonical <==> Mismatch(code, b, m, c)
    ensures canonical == Picked(CODES, code => code in canonical)
  {
    var issues: set<Code> := {};
    for k := 0 to |CODES|
      invariant forall code :: code in issues <==> code in CODES[..k] && Mismatch(code, b, m, c)
    {
      if Mismatch(CODES[k], b, m, c) {
        issues := issues + {CODES[k]};
      }
    }
    canonical := Picked(CODES, code => code in issues);
    forall code: Code
      ensures code in canonical <==> code in issues
      ensures code in issues <==> Mismatch(code, b, m, c)
    {
      EveryCode(code);
      PickedAre(CODES, x => x in issues, code);
    }
    PickedAlike(CODES, code => code in issues, code => code in canonical);
  }

  /** The evidence is the run asked for; at most the latency reading is withheld. */
  predicate SameRun(b: Bundle, m: Measurements, c: Criterion) {
    && b.run == c.identity && b.hasProfileFacts && b.traffic == Concurrent
    && b.executionAdapter == c.identity.profile.adapter
    && b.executionAdapterVersion == c.identity.profile.adapterVersion
    && m.attempted == c.identity.measuredRequests
  }

  predicate SameReading(m: Measurements, c: Criterion) {
    && m.ttftDefinition == c.definition
    && c.reducer == NearestRankV1 && c.population == SuccessfulWithTtft
    && m.successful >= c.minimumSuccessful
  }

  /** No issue means the very run and reading the criterion names. */
  lemma IssuesMeanMismatch(b: Bundle, m: Measurements, c: Criterion)
    ensures Issues(b, m, c) <= TTFT_ONLY <==> SameRun(b, m, c)
    ensures Issues(b, m, c) == {} <==> SameRun(b, m, c) && SameReading(m, c)
  {
    var issues := Issues(b, m, c);
    if issues <= TTFT_ONLY {
      NoRunMismatch(b, m, c);
    }
    if issues == {} {
      assert METRIC_DEFINITION_MISMATCH !in issues && REDUCER_MISMATCH !in issues;
      assert LATENCY_POPULATION_MISMATCH !in issues && SUCCESSFUL_SAMPLE_SHORTFALL !in issues;
    }
    if SameRun(b, m, c) {
      forall code | code in issues
        ensures code in TTFT_ONLY
      {
        SameRunRaises(code, b, m, c);
      }
    }
    hide SameRun;
  }

  lemma NoRunMismatch(b: Bundle, m: Measurements, c: Criterion)
    requires Issues(b, m, c) <= TTFT_ONLY
    ensures SameRun(b, m, c)
  {
    var issues := Issues(b, m, c);
    assert EVIDENCE_PROFILE_MISMATCH !in issues && TARGET_MODEL_MISMATCH !in issues;
    assert MODEL_REVISION_MISMATCH !in issues && TOKENIZER_REVISION_MISMATCH !in issues;
    assert ENDPOINT_MISMATCH !in issues && REQUEST_PLAN_MISMATCH !in issues && WORKLOAD_MISMATCH !in issues;
    assert CONFIGURED_CONCURRENCY_MISMATCH !in issues && REQUEST_POPULATION_MISMATCH !in issues;
    assert WARMUP_POPULATION_MISMATCH !in issues;
  }

  lemma SameRunRaises(code: Code, b: Bundle, m: Measurements, c: Criterion)
    requires SameRun(b, m, c) && Mismatch(code, b, m, c)
    ensures code in TTFT_ONLY
  {
  }

  /******* Managed verdict *******/

  function EvaluateManagedVerdict(m: Measurements, c: Criterion, issues: set<Code>): VerdictStatus {
    var populationIsValid :=
      && m.attempted == c.exactAttempts == c.identity.measuredRequests
      && m.successful + m.failed == m.attempted
      && m.anomalous <= m.failed
      && m.attempted > 0 && m.errorRate == DefaultQuotient(m.failed, m.attempted);
    if issues - TTFT_ONLY != {} || !populationIsValid then NOT_PROVEN
    else if !(m.failed * 10_000 < c.thresholdBasisPoints * m.attempted) then FAIL
    else
      var latencyIsValid :=
        && issues == {} && m.successful >= c.minimumSuccessful
        && m.p95TtftNs.Some? && m.p95TtftNs.value >= 0
        && m.ttftDefinition == c.definition;
      if !latencyIsValid then NOT_PROVEN
      else if m.p95TtftNs.value < c.thresholdNs then PASS else FAIL
  }

  /** The measurements add up, and are of the population that the criterion asks for. */
  predicate AddUp(m: Measurements, c: Criterion) {
    && 0 < m.attempted == m.successful + m.failed && m.anomalous <= m.failed
    && m.errorRate == DefaultQuotient(m.failed, m.attempted)
    && m.attempted == c.exactAttempts && m.attempted == c.identity.measuredRequests
  }

  /** A latency is known: the very run, read by the clock asked for, from enough successes. */
  predicate Timed(m: Measurements, c: Criterion, issues: set<Code>) {
    issues == {} && m.ttftDefinition == c.definition && m.successful >= c.minimumSuccessful
    && m.p95TtftNs.Some? && m.p95TtftNs.value >= 0
  }

  /** Of any measurements whatever: those that do not add up prove nothing, and neither does a
      latency that is not known; otherwise errors are judged first and the latency second. */
  lemma VerdictOfMeasurements(m: Measurements, c: Criterion, issues: set<Code>)
    ensures var v, errors := EvaluateManagedVerdict(m, c, issues), 10_000 * m.failed >= c.thresholdBasisPoints * m.attempted;
            && (v == PASS <==> AddUp(m, c) && !errors && Timed(m, c, issues) && m.p95TtftNs.value < c.thresholdNs)
            && (v == FAIL <==> AddUp(m, c) && issues <= TTFT_ONLY &&
                               (errors || (Timed(m, c, issues) && m.p95TtftNs.value >= c.thresholdNs)))
  {
    hide DefaultQuotient;
    assert issues - TTFT_ONLY == {} <==> issues <= TTFT_ONLY;
  }

  /** Too many of the requests failed. */
  predicate Unreliable(records: seq<Record>, c: Criterion) {
    10_000 * (|records| - CountStatus(records, SUCCESS)) >= c.thresholdBasisPoints * |records|
  }

  /** At least 95% of the successful first-event times are under the threshold. */
  predicate FastEnough(records: seq<Record>, c: Criterion) {
    95 * CountStatus(records, SUCCESS) <= 100 * CountUnder(SuccessTtfts(records), c.thresholdNs)
  }

  predicate RightPopulation(records: seq<Record>, c: Criterion) {
    |records| == c.exactAttempts == c.identity.measuredRequests
  }

  predicate LatencyProvable(records: seq<Record>, c: Criterion, issues: set<Code>) {
    issues == {} && c.definition == FirstChoicesEvent
    && CountStatus(records, SUCCESS) >= Max(c.minimumSuccessful, 1)
  }

  /** The verdict read off the records by counting alone, for each of its three values. */
  lemma VerdictByCounting(records: seq<Record>, c: Criterion, issues: set<Code>)
    requires records != [] && AllValid(records)
    ensures var v := EvaluateManagedVerdict(Reduce(records), c, issues);
            && (v == NOT_PROVEN <==>
                  !(issues <= TTFT_ONLY) || !RightPopulation(records, c)
                  || (!Unreliable(records, c) && !LatencyProvable(records, c, issues)))
            && (v == PASS <==>
                  RightPopulation(records, c) && !Unreliable(records, c)
                  && LatencyProvable(records, c, issues) && FastEnough(records, c))
            && (v == FAIL <==>
                  issues <= TTFT_ONLY && RightPopulation(records, c)
                  && (Unreliable(records, c) || (LatencyProvable(records, c, issues) && !FastEnough(records, c))))
  {
    hide DefaultQuotient, FastEnough, CountStatus, NearestRank, SuccessTtfts;
    CountsPartition(records);
    LatencyByCounting(records, c);
    assert issues - TTFT_ONLY == {} <==> issues <= TTFT_ONLY;
  }

  /** The latency comparison, by counting. */
  lemma LatencyByCounting(records: seq<Record>, c: Criterion)
    requires records != [] && AllValid(records)
    ensures var p95 := Reduce(records).p95TtftNs;
            && (p95.Some? <==> CountStatus(records, SUCCESS) > 0)
            && (p95.Some? ==> p95.value >= 0 && (p95.value < c.thresholdNs <==> FastEnough(records, c)))
  {
    TtftPerSuccess(records);
    var ttfts := SuccessTtfts(records);
    if ttfts != [] {
      NearestRankBelow(ttfts, 95, c.thresholdNs);
      NearestRankBelow(ttfts, 95, 0);
      NoneNegative(records);
    }
  }

  lemma {:induction false} NoneNegative(records: seq<Record>)
    ensures CountUnder(SuccessTtfts(records), 0) == 0
  {
    assert Collected(records, TtftOf) == SuccessTtfts(records);
    if records != [] {
      NoneNegative(records[1..]);
      CountAppend(TtftOf(records[0]), SuccessTtfts(records[1..]), x => x < 0);
    }
  }

  /** Same outcomes, every first-event time at least as late. */
  predicate Slower(records: seq<Record>, slower: seq<Record>) {
    && |records| == |slower|
    && forall i :: 0 <= i < |records| ==>
         && records[i].status == slower[i].status
         && (records[i].ttftNs.Some? && slower[i].ttftNs.Some? ==>
               records[i].ttftNs.value <= slower[i].ttftNs.value)
  }

  lemma {:induction false} SlowerTtfts(records: seq<Record>, slower: seq<Record>)
    requires AllValid(records) && AllValid(slower) && Slower(records, slower)
    ensures CountStatus(records, SUCCESS) == CountStatus(slower, SUCCESS)
    ensures |SuccessTtfts(records)| == |SuccessTtfts(slower)|
    ensures forall i :: 0 <= i < |SuccessTtfts(records)| ==> SuccessTtfts(records)[i] <= SuccessTtfts(slower)[i]
  {
    if records != [] {
      assert ValidObservations(records[0]) && ValidObservations(slower[0]);
      SlowerTtfts(records[1..], slower[1..]);
    }
  }

  /** Slowing requests down never earns a PASS and never clears a FAIL. */
  lemma SlowerIsNoBetter(records: seq<Record>, slower: seq<Record>, c: Criterion, issues: set<Code>)
    requires records != [] && AllValid(records) && AllValid(slower) && Slower(records, slower)
    ensures EvaluateManagedVerdict(Reduce(slower), c, issues) == PASS
            ==> EvaluateManagedVerdict(Reduce(records), c, issues) == PASS
    ensures EvaluateManagedVerdict(Reduce(records), c, issues) == FAIL
            ==> EvaluateManagedVerdict(Reduce(slower), c, issues) == FAIL
  {
    SlowerTtfts(records, slower);
    CountRaised(SuccessTtfts(records), SuccessTtfts(slower), c.thresholdNs);
    VerdictByCounting(records, c, issues);
    VerdictByCounting(slower, c, issues);
  }

  /******* Record order *******/

  lemma {:induction false} StatusCounts(records: seq<Record>, status: Status)
    ensures CountStatus(records, status) == Count(records, (r: Record) => r.status == status)
  {
    if records != [] {
      StatusCounts(records[1..], status);
    }
  }

  /** The measurement does not depend on the order of the records. */
  lemma ReductionIsOrderFree(records: seq<Record>, permuted: seq<Record>)
    requires records != [] && AllValid(records) && AllValid(permuted)
    requires multiset(records) == multiset(permuted)
    ensures permuted != [] && Reduce(records) == Reduce(permuted)
  {
    hide DefaultQuotient, NearestRank, SuccessTtfts, CountStatus;
    SameLength(records, permuted);
    StatusesOrderFree(records, permuted, SUCCESS);
    StatusesOrderFree(records, permuted, ANOMALOUS_EMPTY_STREAM);
    TtftsOrderFree(records, permuted);
    var s, t := SuccessTtfts(records), SuccessTtfts(permuted);
    SameLength(s, t);
    if s != [] {
      NearestRankOrderFree(s, t, 95);
    }
  }

  lemma StatusesOrderFree(records: seq<Record>, permuted: seq<Record>, status: Status)
    requires multiset(records) == multiset(permuted)
    ensures CountStatus(records, status) == CountStatus(permuted, status)
  {
    hide CountStatus;
    StatusCounts(records, status);
    StatusCounts(permuted, status);
    CountOrderFree(records, permuted, (r: Record) => r.status == status);
  }

  lemma TtftsOrderFree(records: seq<Record>, permuted: seq<Record>)
    requires multiset(records) == multiset(permuted) && AllValid(records) && AllValid(permuted)
    ensures multiset(SuccessTtfts(records)) == multiset(SuccessTtfts(permuted))
  {
    CollectedOrderFree(records, permuted, TtftOf);
  }
}
