/** The earlier import path: its own applicability codes, a float threshold in milliseconds, two
    comparison operators, and two rules combined with failure first. */
module ImportVerdict {
  import opened Wrappers
  import opened Decimals
  import opened Percentiles
  import opened Evidence
  import opened Verdict

  datatype ImportCode =
    | CONTRACT_LINK_MISMATCH
    | MODEL_MISMATCH
    | CHAT_ENDPOINT_MISMATCH
    | ADAPTER_MISMATCH
    | POPULATION_MISMATCH
    | TRAFFIC_MISMATCH
    | SAMPLING_MISMATCH
    | WORKLOAD_PROMPT_MISMATCH
    | ENVIRONMENT_INCOMPLETE
    | ANOMALOUS_RECORD
    | TTFT_DEFINITION_MISMATCH
    | RELIABILITY_CLASSIFICATION_UNAVAILABLE

  const IMPORT_CODES: seq<ImportCode> :=
    [CONTRACT_LINK_MISMATCH, MODEL_MISMATCH, CHAT_ENDPOINT_MISMATCH, ADAPTER_MISMATCH, POPULATION_MISMATCH,
     TRAFFIC_MISMATCH, SAMPLING_MISMATCH, WORKLOAD_PROMPT_MISMATCH, ENVIRONMENT_INCOMPLETE, ANOMALOUS_RECORD,
     TTFT_DEFINITION_MISMATCH, RELIABILITY_CLASSIFICATION_UNAVAILABLE]

  datatype Operator = LT | LE

  datatype ImportCriterion = ImportCriterion(
    ttftMs: Dec, operator: Operator, minimumSuccessful: nat, errorThreshold: Dec, minimumAttempts: nat)

  /** Only a criterion of the second version asks why a request failed. */
  datatype CriterionVersion = V1 | V2

  /** What a frozen contract and its workload ask for. */
  datatype Context = Context(
    contract: Id, model: Id, chatEndpoint: string, adapter: Id, adapterVersion: Id,
    requestCount: nat, concurrency: int, warmupCount: int, retries: nat, maxTokens: int,
    prompts: seq<Id>, firstToken: Definition, version: CriterionVersion, criterion: ImportCriterion)

  const NANOSECONDS_PER_MILLISECOND: nat := 1_000_000

  /** The shortest decimal form of a double has no more significant digits. */
  const FLOAT_DIGITS: nat := 17

  const MOST_ATTEMPTS: nat := 1_000

  /** Counts, prompts and thresholds of a validated context, whatever its clock. */
  predicate Countable(x: Context) {
    && x.requestCount == x.criterion.minimumAttempts && 0 < x.criterion.minimumAttempts <= MOST_ATTEMPTS
    && 0 < x.criterion.minimumSuccessful <= x.requestCount
    && x.retries == 0 && x.prompts != []
    && Digits(x.criterion.ttftMs.coeff) <= FLOAT_DIGITS && Digits(x.criterion.errorThreshold.coeff) <= FLOAT_DIGITS
  }

  /** What context validation has established before an import: one clock only is supported. */
  predicate Validated(x: Context) {
    Countable(x) && x.firstToken == FirstNonemptyContent
  }

  /******* Applicability *******/

  function WithoutSlashes(s: string): string {
    if s != [] && s[|s| - 1] == '/' then WithoutSlashes(s[..|s| - 1]) else s
  }

  function ChatEndpoint(endpoint: string): string {
    WithoutSlashes(endpoint) + "/v1/chat/completions"
  }

  /** Slashes at the end of the base make no difference, and nothing else is dropped. */
  lemma EndpointIgnoresSlashes(base: string)
    ensures ChatEndpoint(base + "/") == ChatEndpoint(base)
    ensures (base == "" || base[|base| - 1] != '/') ==> ChatEndpoint(base) == base + "/v1/chat/completions"
  {
    assert (base + "/")[..|base|] == base;
  }

  /** The prompts in turn, for each request. */
  function ExpectedPrompts(x: Context): (digests: seq<Id>)
    requires x.prompts != []
  {
    seq(x.requestCount, index requires 0 <= index < x.requestCount => x.prompts[index % |x.prompts|])
  }

  /** The requests go through the workload's prompts in order, again and again. */
  lemma PromptsTakeTurns(x: Context, index: nat)
    requires x.prompts != []
    ensures |ExpectedPrompts(x)| == x.requestCount
    ensures index < x.requestCount && index < |x.prompts| ==> ExpectedPrompts(x)[index] == x.prompts[index]
    ensures index + |x.prompts| < x.requestCount ==> ExpectedPrompts(x)[index + |x.prompts|] == ExpectedPrompts(x)[index]
  {
    var n := |x.prompts|;
    assert (index + n) % n == index % n by {
      SameRemainder(index, n);
    }
  }

  lemma SameRemainder(index: nat, n: nat)
    requires n > 0
    ensures (index + n) % n == index % n
  {
    var k := (index + n) / n - index / n;
    assert k * n == n + index % n - (index + n) % n;
    Multiples(k, n);
  }

  predicate Raised(code: ImportCode, b: Bundle, m: Measurements, x: Context)
    requires x.prompts != []
  {
    match code
    case CONTRACT_LINK_MISMATCH => b.contractLink != Some(x.contract)
    case MODEL_MISMATCH => b.run.model != x.model
    case CHAT_ENDPOINT_MISMATCH => ChatEndpoint(b.run.endpoint) != x.chatEndpoint
    case ADAPTER_MISMATCH => b.executionAdapter != x.adapter || b.executionAdapterVersion != x.adapterVersion
    case POPULATION_MISMATCH => b.run.measuredRequests != x.requestCount || m.attempted != x.requestCount
    case TRAFFIC_MISMATCH =>
      || b.traffic != Concurrent || b.run.concurrency != x.concurrency
      || b.run.warmupRequests != x.warmupCount || x.retries != 0
    case SAMPLING_MISMATCH => b.outputTokens != x.maxTokens || !b.temperatureIsZero
    case WORKLOAD_PROMPT_MISMATCH => b.promptDigests != ExpectedPrompts(x)
    case ENVIRONMENT_INCOMPLETE => !b.environmentComplete
    case ANOMALOUS_RECORD => m.anomalous != 0
    case TTFT_DEFINITION_MISMATCH => m.ttftDefinition != x.firstToken
    case RELIABILITY_CLASSIFICATION_UNAVAILABLE => x.version == V2 && m.failed > 0
  }

  function ImportIssues(b: Bundle, m: Measurements, x: Context): set<ImportCode>
    requires x.prompts != []
  {
    set code: ImportCode | Raised(code, b, m, x)
  }

  /** What the codes about the population say of the records: that their number is wrong, that some
      stream was anomalous, that some request failed which an older criterion cannot classify. */
  lemma CodesOfRecords(records: seq<Record>, b: Bundle, x: Context)
    requires records != [] && AllValid(records) && x.prompts != []
    ensures var issues := ImportIssues(b, Reduce(records), x);
            && (POPULATION_MISMATCH in issues <==> !(b.run.measuredRequests == |records| == x.requestCount))
            && (ANOMALOUS_RECORD in issues <==> exists r :: r in records && r.status == ANOMALOUS_EMPTY_STREAM)
            && (TTFT_DEFINITION_MISMATCH in issues <==> x.firstToken != FirstChoicesEvent)
            && (RELIABILITY_CLASSIFICATION_UNAVAILABLE in issues <==>
                  x.version == V2 && exists r :: r in records && r.status != SUCCESS)
  {
    SomeOrNone(records, SUCCESS);
    SomeOrNone(records, ANOMALOUS_EMPTY_STREAM);
    hide CountStatus, SuccessTtfts, DefaultQuotient, NearestRank, ChatEndpoint, ExpectedPrompts;
  }

  lemma {:induction false} SomeOrNone(records: seq<Record>, status: Status)
    ensures CountStatus(records, status) > 0 <==> exists r :: r in records && r.status == status
    ensures CountStatus(records, status) < |records| <==> exists r :: r in records && r.status != status
  {
    if records != [] {
      SomeOrNone(records[1..], status);
      assert records == [records[0]] + records[1..];
      assert records[0] in records;
    }
  }

  lemma EveryImportCode(code: ImportCode)
    ensures code in IMPORT_CODES
  {
    assert IMPORT_CODES[0] == CONTRACT_LINK_MISMATCH && IMPORT_CODES[1] == MODEL_MISMATCH;
    assert IMPORT_CODES[2] == CHAT_ENDPOINT_MISMATCH && IMPORT_CODES[3] == ADAPTER_MISMATCH;
    assert IMPORT_CODES[4] == POPULATION_MISMATCH && IMPORT_CODES[5] == TRAFFIC_MISMATCH;
    assert IMPORT_CODES[6] == SAMPLING_MISMATCH && IMPORT_CODES[7] == WORKLOAD_PROMPT_MISMATCH;
    assert IMPORT_CODES[8] == ENVIRONMENT_INCOMPLETE && IMPORT_CODES[9] == ANOMALOUS_RECORD;
    assert IMPORT_CODES[10] == TTFT_DEFINITION_MISMATCH && IMPORT_CODES[11] == RELIABILITY_CLASSIFICATION_UNAVAILABLE;
  }

  /** Appends the codes raised, in the order in which a receipt must list them. */
  method EvaluateImport(b: Bundle, m: Measurements, x: Context) returns (issues: seq<ImportCode>)
    requires x.prompts != []
    ensures forall code :: code in issues <==> Raised(code, b, m, x)
    ensures issues == Picked(IMPORT_CODES, code => code in issues)
  {
    issues := [];
    for k := 0 to |IMPORT_CODES|
      invariant issues == Picked(IMPORT_CODES[..k], code => Raised(code, b, m, x))
    {
      if Raised(IMPORT_CODES[k], b, m, x) {
        issues := issues + [IMPORT_CODES[k]];
      }
      assert IMPORT_CODES[..k + 1][..k] == IMPORT_CODES[..k];
    }
    assert IMPORT_CODES[..|IMPORT_CODES|] == IMPORT_CODES;
    forall code: ImportCode
      ensures code in issues <==> Raised(code, b, m, x)
    {
      EveryImportCode(code);
      PickedAre(IMPORT_CODES, c => Raised(c, b, m, x), code);
    }
    PickedAlike(IMPORT_CODES, code => Raised(code, b, m, x), code => code in issues);
  }

  /** The bundle ran what the context asks for. */
  predicate SameSetting(b: Bundle, m: Measurements, x: Context)
    requires x.prompts != []
  {
    && b.contractLink == Some(x.contract) && b.run.model == x.model && ChatEndpoint(b.run.endpoint) == x.chatEndpoint
    && b.executionAdapter == x.adapter && b.executionAdapterVersion == x.adapterVersion
    && b.run.measuredRequests == m.attempted == x.requestCount
    && b.traffic == Concurrent && b.run.concurrency == x.concurrency && b.run.warmupRequests == x.warmupCount && x.retries == 0
    && b.outputTokens == x.maxTokens && b.temperatureIsZero
    && b.promptDigests == ExpectedPrompts(x) && b.environmentComplete
  }

  /** Both rules are open: the setting is right and no failure is left unclassified. */
  predicate Open(b: Bundle, m: Measurements, x: Context)
    requires x.prompts != []
  {
    SameSetting(b, m, x) && (x.version == V2 ==> m.failed == 0)
  }

  lemma GeneralMeansClosed(b: Bundle, m: Measurements, x: Context)
    requires x.prompts != []
    ensures General(ImportIssues(b, m, x)) <==> !Open(b, m, x)
    ensures TTFT_DEFINITION_MISMATCH in ImportIssues(b, m, x) <==> m.ttftDefinition != x.firstToken
  {
    hide ExpectedPrompts, ChatEndpoint, Open;
    var general := ImportIssues(b, m, x) - {ANOMALOUS_RECORD, TTFT_DEFINITION_MISMATCH};
    if general == {} {
      NoneRaisedMeansOpen(b, m, x);
    } else {
      var code :| code in general;
      RaisedMeansClosed(code, b, m, x);
    }
  }

  lemma NoneRaisedMeansOpen(b: Bundle, m: Measurements, x: Context)
    requires x.prompts != [] && ImportIssues(b, m, x) - {ANOMALOUS_RECORD, TTFT_DEFINITION_MISMATCH} == {}
    ensures Open(b, m, x)
  {
    hide ExpectedPrompts, ChatEndpoint;
    var general := ImportIssues(b, m, x) - {ANOMALOUS_RECORD, TTFT_DEFINITION_MISMATCH};
    assert CONTRACT_LINK_MISMATCH !in general && MODEL_MISMATCH !in general && CHAT_ENDPOINT_MISMATCH !in general;
    assert ADAPTER_MISMATCH !in general && POPULATION_MISMATCH !in general && TRAFFIC_MISMATCH !in general;
    assert SAMPLING_MISMATCH !in general && WORKLOAD_PROMPT_MISMATCH !in general && ENVIRONMENT_INCOMPLETE !in general;
    assert RELIABILITY_CLASSIFICATION_UNAVAILABLE !in general;
  }

  lemma RaisedMeansClosed(code: ImportCode, b: Bundle, m: Measurements, x: Context)
    requires x.prompts != [] && Raised(code, b, m, x) && code != ANOMALOUS_RECORD && code != TTFT_DEFINITION_MISMATCH
    ensures !Open(b, m, x)
  {
    hide ExpectedPrompts, ChatEndpoint;
  }

  /******* Thresholds *******/

  /** The threshold in whole nanoseconds; none when it is not exact or not positive. */
  function ThresholdNs(ms: Dec): Option<nat> {
    var product := Multiply(ms, NANOSECONDS_PER_MILLISECOND, DEFAULT_PRECISION);
    var integral := Rescaled(product.coeff, product.exp);
    if (product.exp >= 0 || Shifted(integral, -product.exp) == product.coeff) && integral > 0 then Some(integral) else None
  }

  /** n nanoseconds are exactly ms milliseconds. */
  predicate ExactlyMs(ms: Dec, n: nat) {
    if ms.exp >= 0 then n == Shifted(ms.coeff * NANOSECONDS_PER_MILLISECOND, ms.exp)
    else Shifted(n, -ms.exp) == ms.coeff * NANOSECONDS_PER_MILLISECOND
  }

  /** A threshold is used exactly when it is a positive whole number of nanoseconds. */
  lemma ThresholdIsExact(ms: Dec, n: nat)
    requires Digits(ms.coeff) <= FLOAT_DIGITS
    ensures ThresholdNs(ms) == Some(n) <==> n > 0 && ExactlyMs(ms, n)
  {
    var c := ms.coeff * NANOSECONDS_PER_MILLISECOND;
    ProductIsExact(ms, NANOSECONDS_PER_MILLISECOND);
    hide Multiply, Digits;
    if ms.exp < 0 {
      DividesBack(n, -ms.exp);
      DividesBack(Rescaled(c, ms.exp), -ms.exp);
    }
    hide HalfEven, Shifted, Pow10;
  }

  /** Whole milliseconds are so many million nanoseconds, and whole nanoseconds are themselves. */
  lemma MillisecondsKeepUnits(n: nat)
    requires n > 0 && Digits(n) <= FLOAT_DIGITS
    ensures ThresholdNs(Dec(n, 0)) == Some(1_000_000 * n) && ThresholdNs(Dec(n, -6)) == Some(n)
  {
    Million(n);
    assert ExactlyMs(Dec(n, 0), 1_000_000 * n) && ExactlyMs(Dec(n, -6), n);
    hide ThresholdNs, ExactlyMs, Digits;
    ThresholdIsExact(Dec(n, 0), 1_000_000 * n);
    ThresholdIsExact(Dec(n, -6), n);
  }

  /** A product of a float's digits and a count of up to seven digits fits the context. */
  lemma ProductFits(c: nat, count: nat)
    requires Digits(c) <= FLOAT_DIGITS && count <= 1_000_000
    ensures Digits(c * count) <= DEFAULT_PRECISION
  {
    Million(c);
    hide Digits, Shifted, Pow10;
    MulMonotone(count, 1_000_000, c);
    ShiftedDigits(c, 6);
    DigitsMonotone(c * count, Shifted(c, 6));
  }

  lemma Million(n: nat)
    ensures Shifted(n, 6) == n * 1_000_000
    ensures Shifted(n, 4) == 10_000 * n
  {
    ShiftedIsProduct(n, 6);
    ShiftedIsProduct(n, 4);
    hide Shifted;
  }

  /** Scaling up and rounding down returns the same integer. */
  lemma DividesBack(n: nat, k: nat)
    ensures HalfEven(Shifted(n, k), Pow10(k)) == n
  {
    hide HalfEven;
    ShiftedIsProduct(n, k);
    HalfEvenScale(n, 1, Pow10(k));
    HalfEvenOne(n);
  }

  /** failed < threshold * attempts, with the product rounded to the context. */
  predicate ErrorsBelow(failed: nat, threshold: Dec, attempts: nat) {
    !DecLeq(Multiply(threshold, attempts, DEFAULT_PRECISION), Dec(failed, 0))
  }

  lemma ProductIsExact(x: Dec, count: nat)
    requires Digits(x.coeff) <= FLOAT_DIGITS && count <= 1_000_000
    ensures Multiply(x, count, DEFAULT_PRECISION) == Dec(x.coeff * count, x.exp)
  {
    ProductFits(x.coeff, count);
    hide Digits, Pow10, HalfEven;
  }

  /** Whatever float the threshold is, the comparison is exact: failed < threshold * attempts,
      read at any exponent where all three are whole. */
  lemma ErrorsCompareExactly(failed: nat, threshold: Dec, attempts: nat, e: int)
    requires Digits(threshold.coeff) <= FLOAT_DIGITS && attempts <= MOST_ATTEMPTS
    requires e <= threshold.exp && e <= 0
    ensures ErrorsBelow(failed, threshold, attempts) <==> Dec(failed, 0).At(e) < threshold.At(e) * attempts
  {
    ProductIsExact(threshold, attempts);
    hide Multiply, Digits, Shifted, DecLeq;
    var product := Dec(threshold.coeff * attempts, threshold.exp);
    OrderAt(product, Dec(failed, 0), e);
    assert product.At(e) == threshold.At(e) * attempts by {
      Commuted(threshold.coeff, attempts);
      ShiftedTimes(attempts, threshold.coeff, threshold.exp - e);
      Commuted(Shifted(threshold.coeff, threshold.exp - e), attempts);
    }
  }

  lemma Commuted(x: int, y: int)
    ensures x * y == y * x
  {
  }

  predicate SameNumber(x: Dec, y: Dec) {
    DecLeq(x, y) && DecLeq(y, x)
  }

  /** A threshold of so many basis points, in whatever form, is compared as basis points. */
  lemma BasisPointsCompareExactly(failed: nat, threshold: Dec, basisPoints: nat, attempts: nat)
    requires Digits(threshold.coeff) <= FLOAT_DIGITS && attempts <= MOST_ATTEMPTS
    requires SameNumber(threshold, Dec(basisPoints, -4))
    ensures ErrorsBelow(failed, threshold, attempts) <==> 10_000 * failed < basisPoints * attempts
  {
    var e := Min(threshold.exp, -4);
    ErrorsCompareExactly(failed, threshold, attempts, e);
    hide Digits, SameNumber, Shifted, ErrorsBelow;
    SameAt(threshold, Dec(basisPoints, -4), e);
    AtTenThousandths(failed, basisPoints, attempts, -4 - e);
  }

  lemma SameAt(x: Dec, y: Dec, e: int)
    requires SameNumber(x, y) && e <= x.exp && e <= y.exp
    ensures x.At(e) == y.At(e)
  {
    hide DecLeq, Shifted;
    OrderAt(x, y, e);
    OrderAt(y, x, e);
  }

  /** The same comparison k places further on. */
  lemma AtTenThousandths(failed: nat, basisPoints: nat, attempts: nat, k: nat)
    ensures Shifted(failed, 4 + k) < Shifted(basisPoints, k) * attempts <==> 10_000 * failed < basisPoints * attempts
  {
    Million(failed);
    hide Shifted;
    ShiftedTwice(failed, 4, k);
    Commuted(basisPoints, attempts);
    Commuted(Shifted(basisPoints, k), attempts);
    ShiftedTimes(attempts, basisPoints, k);
    ShiftedOrder(attempts * basisPoints, 10_000 * failed, k);
  }

  /******* The two rules *******/

  /** Everything but an anomaly or the clock definition withholds both rules. */
  predicate General(issues: set<ImportCode>) {
    issues - {ANOMALOUS_RECORD, TTFT_DEFINITION_MISMATCH} != {}
  }

  function TtftRule(m: Measurements, c: ImportCriterion, issues: set<ImportCode>): VerdictStatus {
    var threshold := ThresholdNs(c.ttftMs);
    if General(issues) || TTFT_DEFINITION_MISMATCH in issues || threshold.None? then NOT_PROVEN
    else if m.successful < c.minimumSuccessful then NOT_PROVEN
    else if m.p95TtftNs.None? then NOT_PROVEN
    else if (if c.operator == LT then m.p95TtftNs.value < threshold.value else m.p95TtftNs.value <= threshold.value) then PASS
    else FAIL
  }

  function ErrorRule(m: Measurements, c: ImportCriterion, issues: set<ImportCode>): VerdictStatus {
    if General(issues) then NOT_PROVEN
    else if m.attempted != c.minimumAttempts then NOT_PROVEN
    else if ErrorsBelow(m.failed, c.errorThreshold, m.attempted) then PASS
    else FAIL
  }

  function EvaluateContract(m: Measurements, c: ImportCriterion, issues: set<ImportCode>): VerdictStatus {
    var statuses := {TtftRule(m, c, issues), ErrorRule(m, c, issues)};
    if FAIL in statuses then FAIL else if NOT_PROVEN in statuses then NOT_PROVEN else PASS
  }

  /** First-event times below this bound pass. */
  function TtftBound(c: ImportCriterion): Option<nat> {
    match ThresholdNs(c.ttftMs)
    case None => None
    case Some(t) => Some(if c.operator == LT then t else t + 1)
  }

  predicate TtftProvable(records: seq<Record>, c: ImportCriterion, issues: set<ImportCode>) {
    && !General(issues) && TTFT_DEFINITION_MISMATCH !in issues && TtftBound(c).Some?
    && CountStatus(records, SUCCESS) >= Max(c.minimumSuccessful, 1)
  }

  predicate ManyUnder(records: seq<Record>, bound: nat) {
    95 * CountStatus(records, SUCCESS) <= 100 * CountUnder(SuccessTtfts(records), bound)
  }

  predicate ErrorsProvable(records: seq<Record>, c: ImportCriterion, issues: set<ImportCode>) {
    !General(issues) && |records| == c.minimumAttempts
  }

  predicate FewErrors(records: seq<Record>, c: ImportCriterion) {
    ErrorsBelow(|records| - CountStatus(records, SUCCESS), c.errorThreshold, |records|)
  }

  /** The verdict read off the records by counting alone, for each of its three values. */
  lemma ImportByCounting(records: seq<Record>, c: ImportCriterion, issues: set<ImportCode>)
    requires records != [] && AllValid(records)
    ensures var v := EvaluateContract(Reduce(records), c, issues);
            var slow := TtftProvable(records, c, issues) && !ManyUnder(records, TtftBound(c).value);
            var failing := ErrorsProvable(records, c, issues) && !FewErrors(records, c);
            && (v == FAIL <==> slow || failing)
            && (v == PASS <==> TtftProvable(records, c, issues) && ErrorsProvable(records, c, issues) && !slow && !failing)
  {
    hide DefaultQuotient, CountStatus, NearestRank, SuccessTtfts, ThresholdNs, ErrorsBelow, General;
    TtftPerSuccess(records);
    var ttfts := SuccessTtfts(records);
    if ttfts != [] && TtftBound(c).Some? {
      NearestRankBelow(ttfts, 95, TtftBound(c).value);
    }
  }

  /** An anomalous record raises a code that changes no verdict. */
  lemma AnomaliesChangeNothing(m: Measurements, c: ImportCriterion, issues: set<ImportCode>)
    ensures EvaluateContract(m, c, issues + {ANOMALOUS_RECORD}) == EvaluateContract(m, c, issues)
  {
    assert issues + {ANOMALOUS_RECORD} - {ANOMALOUS_RECORD, TTFT_DEFINITION_MISMATCH} ==
           issues - {ANOMALOUS_RECORD, TTFT_DEFINITION_MISMATCH};
    hide ThresholdNs, ErrorsBelow;
  }

  function Import(b: Bundle, m: Measurements, x: Context): VerdictStatus
    requires x.prompts != []
  {
    EvaluateContract(m, x.criterion, ImportIssues(b, m, x))
  }

  /** The clock definitions agree and enough requests succeeded to speak of their latency. */
  predicate LatencyKnown(records: seq<Record>, x: Context) {
    && x.firstToken == FirstChoicesEvent && TtftBound(x.criterion).Some?
    && CountStatus(records, SUCCESS) >= x.criterion.minimumSuccessful
  }

  /** The verdict of an import, from the bundle and its records to PASS and FAIL. */
  lemma ImportEndToEnd(records: seq<Record>, b: Bundle, x: Context)
    requires records != [] && AllValid(records) && Countable(x)
    ensures var m := Reduce(records);
            && (Import(b, m, x) == FAIL <==>
                  Open(b, m, x) && (!FewErrors(records, x.criterion) ||
                                    (LatencyKnown(records, x) && !ManyUnder(records, TtftBound(x.criterion).value))))
            && (Import(b, m, x) == PASS <==>
                  Open(b, m, x) && FewErrors(records, x.criterion) &&
                  LatencyKnown(records, x) && ManyUnder(records, TtftBound(x.criterion).value))
  {
    var m := Reduce(records);
    ImportByCounting(records, x.criterion, ImportIssues(b, m, x));
    GeneralMeansClosed(b, m, x);
    hide Digits, Raised, DefaultQuotient, NearestRank, SuccessTtfts, General, ManyUnder, FewErrors, TtftBound, EvaluateContract,
         ExpectedPrompts, ChatEndpoint;
  }

  /** With the one clock that validation supports, which times the first nonempty content, an
      import never passes; it fails exactly on its errors. */
  lemma ContentWorkloadsNeverPass(records: seq<Record>, b: Bundle, x: Context)
    requires records != [] && AllValid(records) && Validated(x)
    ensures Import(b, Reduce(records), x) ==
            if Open(b, Reduce(records), x) && !FewErrors(records, x.criterion) then FAIL else NOT_PROVEN
  {
    hide Import, Open, FewErrors, Digits, ManyUnder, TtftBound;
    ImportEndToEnd(records, b, x);
  }
}
