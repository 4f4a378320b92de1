/** Canonical request records, the native arrays they must agree with, and the reduction of
    the records to the measurement that verdicts are taken from. */
module Evidence {
  import opened Wrappers
  import opened Decimals
  import opened Measurement
  import opened Percentiles

  /** A digest identifies the text it was taken from. */
  datatype Sha256 = Sha256(text: string)

  datatype Status = SUCCESS | FAILED | ANOMALOUS_EMPTY_STREAM

  datatype Record = Record(
    status: Status,
    producerError: Option<string>,
    startOffsetNs: nat,
    ttftNs: Option<nat>,
    itlNs: seq<nat>,
    inputTokens: nat,
    outputTokens: nat,
    response: Option<Sha256>,
    arrayIndex: nat)

  datatype Native = Native(
    errors: seq<string>,
    generatedTexts: seq<string>,
    inputLens: seq<nat>,
    outputLens: seq<nat>,
    ttfts: seq<Dec>,
    startTimes: seq<Dec>,
    itls: seq<seq<Dec>>,
    completed: nat,
    failed: nat,
    totalInputTokens: nat,
    totalOutputTokens: nat,
    duration: Dec)

  const NATIVE_ARRAY_LIMIT: nat := 100_000
  const DEFAULT_PRECISION: nat := 28

  /** Per-record consistency of outcome and observations. */
  predicate ValidObservations(r: Record) {
    && (r.ttftNs.None? ==> r.itlNs == [])
    && match r.status
       case SUCCESS => r.producerError.None? && r.ttftNs.Some? && r.response.Some?
       case FAILED => r.producerError.Some? && r.producerError.value != ""
       case ANOMALOUS_EMPTY_STREAM =>
         r.producerError.None? && r.ttftNs.None? && r.itlNs == [] && r.outputTokens == 0
         && r.response == Some(Sha256(""))
  }

  /** So an error is recorded just for failures, a first event for every success and no anomaly,
      and intervals only after a first event. */
  lemma ObservationsFollowStatus(r: Record)
    requires ValidObservations(r)
    ensures r.status == FAILED <==> r.producerError.Some?
    ensures r.producerError != Some("")
    ensures r.status == SUCCESS ==> r.ttftNs.Some?
    ensures r.ttftNs.None? ==> r.itlNs == []
    ensures r.status == ANOMALOUS_EMPTY_STREAM ==> r.ttftNs.None? && r.outputTokens == 0
    ensures r.status != FAILED ==> r.response.Some?
    ensures r.status == ANOMALOUS_EMPTY_STREAM ==> r.response.value.text == ""
  {
  }

  predicate AllValid(records: seq<Record>) {
    forall i :: 0 <= i < |records| ==> ValidObservations(records[i])
  }

  /******* Native arrays *******/

  predicate SamePopulation(native: Native, n: nat) {
    |native.errors| == |native.generatedTexts| == |native.inputLens| == |native.outputLens|
    == |native.ttfts| == |native.startTimes| == |native.itls| == n
  }

  function NativeStatus(native: Native, i: nat): Status
    requires SamePopulation(native, |native.errors|) && i < |native.errors|
  {
    if native.errors[i] != "" then FAILED
    else if native.outputLens[i] == 0 && native.generatedTexts[i] == "" then ANOMALOUS_EMPTY_STREAM
    else SUCCESS
  }

  /** ns is the exactly rounded conversion of a native number of seconds, in range. */
  predicate IsNs(ns: nat, seconds: Dec) {
    ns == ExactNs(seconds) <= MAX_NANOSECONDS
  }

  /** Record i says exactly what element i of the native arrays says. */
  predicate RecordBound(native: Native, firstStart: Dec, i: nat, r: Record)
    requires SamePopulation(native, |native.errors|) && i < |native.errors|
  {
    var status := NativeStatus(native, i);
    && r.status == status
    && r.producerError == (if native.errors[i] != "" then Some(native.errors[i]) else None)
    && IsNs(r.startOffsetNs, Subtract(native.startTimes[i], firstStart, DEFAULT_PRECISION))
    && (if status == SUCCESS
        then && r.ttftNs.Some? && IsNs(r.ttftNs.value, native.ttfts[i])
             && |r.itlNs| == |native.itls[i]|
             && forall k :: 0 <= k < |r.itlNs| ==> IsNs(r.itlNs[k], native.itls[i][k])
        else r.ttftNs.None? && r.itlNs == [])
    && r.inputTokens == native.inputLens[i]
    && r.outputTokens == native.outputLens[i]
    && r.response == Some(Sha256(native.generatedTexts[i]))
    && r.arrayIndex == i
  }

  function Sum(s: seq<nat>): nat {
    if s == [] then 0 else s[|s| - 1] + Sum(s[..|s| - 1])
  }

  function NonEmptyCount(s: seq<string>): (c: nat)
    ensures c <= |s|
  {
    if s == [] then 0 else (if s[|s| - 1] != "" then 1 else 0) + NonEmptyCount(s[..|s| - 1])
  }

  /** Some earliest start, whichever representation it has. */
  function Earliest(starts: seq<Dec>): (m: Dec)
    requires starts != []
  {
    if |starts| == 1 then starts[0]
    else
      var m := Earliest(starts[..|starts| - 1]);
      if DecLeq(m, starts[|starts| - 1]) then m else starts[|starts| - 1]
  }

  lemma {:induction false} EarliestIsLeast(starts: seq<Dec>)
    requires starts != []
    ensures Earliest(starts) in starts
    ensures forall x :: x in starts ==> DecLeq(Earliest(starts), x)
  {
    var n := |starts|;
    if n > 1 {
      EarliestIsLeast(starts[..n - 1]);
      forall x | x in starts ensures DecLeq(Earliest(starts), x) {
        if x in starts[..n - 1] && Earliest(starts) == starts[n - 1] {
          DecLeqTransitive(starts[n - 1], Earliest(starts[..n - 1]), x);
        }
      }
    }
  }

  /** The whole native result agrees with the canonical records and the measured window. */
  predicate Bound(native: Native, records: seq<Record>, windowNs: nat) {
    && 0 < |records| <= NATIVE_ARRAY_LIMIT
    && SamePopulation(native, |records|)
    && native.failed == NonEmptyCount(native.errors)
    && native.completed == |records| - native.failed
    && native.totalInputTokens == Sum(native.inputLens)
    && native.totalOutputTokens == Sum(native.outputLens)
    && IsNs(windowNs, native.duration)
    && forall i :: 0 <= i < |records| ==> RecordBound(native, Earliest(native.startTimes), i, records[i])
  }

  /** Compares record by record; a conversion that fails rejects the result. */
  method ValidateNativeBindings(native: Native, records: seq<Record>, windowNs: nat) returns (ok: bool)
    ensures ok <==> Bound(native, records, windowNs)
  {
    if !(0 < |records| <= NATIVE_ARRAY_LIMIT) || !SamePopulation(native, |records|) {
      return false;
    }
    hide SecondsToNs, ExactNs, Subtract, Sum, NonEmptyCount, Earliest, RecordBound;
    var failed, inputs, outputs, first := Summarize(native);
    SecondsAreExactlyRounded(native.duration);
    if native.completed != |records| - failed || native.failed != failed
       || native.totalInputTokens != inputs || native.totalOutputTokens != outputs
       || SecondsToNs(native.duration) != Ok(windowNs) {
      return false;
    }
    for i := 0 to |records|
      invariant forall k :: 0 <= k < i ==> RecordBound(native, first, k, records[k])
    {
      var bound := ValidateRecord(native, first, i, records[i]);
      if !bound {
        return false;
      }
    }
    return true;
  }

  /** Population totals and the earliest start. */
  method Summarize(native: Native) returns (failed: nat, inputs: nat, outputs: nat, first: Dec)
    requires SamePopulation(native, |native.errors|) && native.errors != []
    ensures failed == NonEmptyCount(native.errors)
    ensures inputs == Sum(native.inputLens) && outputs == Sum(native.outputLens)
    ensures first == Earliest(native.startTimes)
  {
    var n := |native.errors|;
    failed, inputs, outputs, first := 0, 0, 0, native.startTimes[0];
    for i := 0 to n
      invariant failed == NonEmptyCount(native.errors[..i])
      invariant inputs == Sum(native.inputLens[..i]) && outputs == Sum(native.outputLens[..i])
    {
      assert native.errors[..i + 1][..i] == native.errors[..i];
      assert native.inputLens[..i + 1][..i] == native.inputLens[..i];
      assert native.outputLens[..i + 1][..i] == native.outputLens[..i];
      failed := failed + if native.errors[i] != "" then 1 else 0;
      inputs, outputs := inputs + native.inputLens[i], outputs + native.outputLens[i];
    }
    for i := 1 to n
      invariant first == Earliest(native.startTimes[..i])
    {
      assert native.startTimes[..i + 1][..i] == native.startTimes[..i];
      first := if DecLeq(first, native.startTimes[i]) then first else native.startTimes[i];
    }
    assert native.errors[..n] == native.errors && native.startTimes[..n] == native.startTimes;
    assert native.inputLens[..n] == native.inputLens && native.outputLens[..n] == native.outputLens;
  }

  method ValidateRecord(native: Native, first: Dec, i: nat, r: Record) returns (ok: bool)
    requires SamePopulation(native, |native.errors|) && i < |native.errors|
    ensures ok <==> RecordBound(native, first, i, r)
  {
    hide SecondsToNs, ExactNs, Subtract;
    var status := NativeStatus(native, i);
    var offset := Subtract(native.startTimes[i], first, DEFAULT_PRECISION);
    SecondsAreExactlyRounded(offset);
    SecondsAreExactlyRounded(native.ttfts[i]);
    var itls := true;
    if status == SUCCESS {
      itls := |r.itlNs| == |native.itls[i]|;
      var k := 0;
      while itls && k < |r.itlNs|
        invariant itls ==> |r.itlNs| == |native.itls[i]| && k <= |r.itlNs|
        invariant itls ==> forall j :: 0 <= j < k ==> IsNs(r.itlNs[j], native.itls[i][j])
        invariant !itls ==> |r.itlNs| != |native.itls[i]|
                            || exists j :: 0 <= j < |r.itlNs| && !IsNs(r.itlNs[j], native.itls[i][j])
        decreases itls, |r.itlNs| - k
      {
        SecondsAreExactlyRounded(native.itls[i][k]);
        itls := SecondsToNs(native.itls[i][k]) == Ok(r.itlNs[k]);
        k := k + 1;
      }
    } else {
      itls := r.itlNs == [];
    }
    var ttft := if status == SUCCESS
                then r.ttftNs.Some? && SecondsToNs(native.ttfts[i]) == Ok(r.ttftNs.value)
                else r.ttftNs.None?;
    ok := r.status == status
          && r.producerError == (if native.errors[i] != "" then Some(native.errors[i]) else None)
          && SecondsToNs(offset) == Ok(r.startOffsetNs)
          && ttft && itls
          && r.inputTokens == native.inputLens[i]
          && r.outputTokens == native.outputLens[i]
          && r.response == Some(Sha256(native.generatedTexts[i]))
          && r.arrayIndex == i;
  }

  /******* What binding means *******/

  /** A request failed just when it reported an error, and its stream was anomalous just when, with
      no error, nothing came: so a success said something. */
  lemma StatusFollowsStream(native: Native, records: seq<Record>, windowNs: nat, i: nat)
    requires Bound(native, records, windowNs) && i < |records|
    ensures records[i].status == FAILED <==> native.errors[i] != ""
    ensures records[i].status == ANOMALOUS_EMPTY_STREAM <==>
            native.errors[i] == "" && records[i].outputTokens == 0 && records[i].response == Some(Sha256(""))
  {
    assert RecordBound(native, Earliest(native.startTimes), i, records[i]);
    hide Earliest, Subtract, ExactNs;
  }

  /** Native starts are compared by the time since the earliest. When that fits the context the
      record's offset is its exact conversion, rounded once; the earliest request has offset 0. */
  lemma OffsetsAreTimeSinceFirst(native: Native, records: seq<Record>, windowNs: nat, i: nat)
    requires Bound(native, records, windowNs) && i < |records|
    ensures var first, start := Earliest(native.startTimes), native.startTimes[i];
            var e := Min(start.exp, first.exp);
            var since := start.At(e) - first.At(e);
            && since >= 0
            && (Digits(since) <= 28 ==> records[i].startOffsetNs == ExactNs(Dec(since, e)))
            && (DecLeq(start, first) ==> records[i].startOffsetNs == 0)
  {
    var first, start := Earliest(native.startTimes), native.startTimes[i];
    var e := Min(start.exp, first.exp);
    assert RecordBound(native, first, i, records[i]);
    hide Bound, RecordBound, Subtract, ExactNs, Digits, RoundsTiesToEven, Pow10;
    EarliestIsLeast(native.startTimes);
    hide Earliest;
    SubtractIsTiesToEven(start, first, DEFAULT_PRECISION);
    hide Shifted;
    if DecLeq(start, first) {
      NothingRounds(e);
    }
  }

  lemma NothingRounds(e: int)
    ensures ExactNs(Dec(0, e)) == 0 && Digits(0) == 1
  {
    if e >= 0 {
      ShiftedTimes(0, 0, e);
    }
  }

  /** Whatever is rounded away, a request that started no earlier has no smaller offset. */
  lemma OffsetsKeepOrder(native: Native, records: seq<Record>, windowNs: nat, i: nat, j: nat)
    requires Bound(native, records, windowNs) && i < |records| && j < |records|
    requires DecLeq(native.startTimes[i], native.startTimes[j])
    ensures records[i].startOffsetNs <= records[j].startOffsetNs
  {
    var first := Earliest(native.startTimes);
    assert RecordBound(native, first, i, records[i]) && RecordBound(native, first, j, records[j]);
    hide Bound, RecordBound, Subtract, ExactNs, DecLeq;
    EarliestIsLeast(native.startTimes);
    hide Earliest;
    var some, other := native.startTimes[i], native.startTimes[j];
    SubtractMonotone(some, other, first, DEFAULT_PRECISION);
    SecondsMonotone(Subtract(some, first, DEFAULT_PRECISION), Subtract(other, first, DEFAULT_PRECISION));
  }

  /** A native result binds to at most one sequence of canonical records and one window. */
  lemma RecordsAreDetermined(native: Native, some: seq<Record>, other: seq<Record>, windowNs: nat, otherNs: nat)
    requires Bound(native, some, windowNs) && Bound(native, other, otherNs)
    ensures some == other && windowNs == otherNs
  {
    hide Subtract, ExactNs, Sum, NonEmptyCount, Earliest;
    forall i | 0 <= i < |some|
      ensures some[i] == other[i]
    {
      var first := Earliest(native.startTimes);
      assert RecordBound(native, first, i, some[i]) && RecordBound(native, first, i, other[i]);
      assert some[i].itlNs == other[i].itlNs;
    }
  }

  predicate InRange(seconds: Dec) {
    ExactNs(seconds) <= MAX_NANOSECONDS
  }

  /** The times that a successful request reports, or any other, fit the integer range. */
  predicate TimesInRange(native: Native, i: nat)
    requires SamePopulation(native, |native.errors|) && i < |native.errors|
  {
    && InRange(Subtract(native.startTimes[i], Earliest(native.startTimes), DEFAULT_PRECISION))
    && (NativeStatus(native, i) == SUCCESS ==>
          InRange(native.ttfts[i]) && forall k :: 0 <= k < |native.itls[i]| ==> InRange(native.itls[i][k]))
  }

  function CanonicalRecord(native: Native, i: nat): Record
    requires SamePopulation(native, |native.errors|) && i < |native.errors|
  {
    var status, error := NativeStatus(native, i), native.errors[i];
    var offset := ExactNs(Subtract(native.startTimes[i], Earliest(native.startTimes), DEFAULT_PRECISION));
    var itls := native.itls[i];
    Record(status, if error == "" then None else Some(error), offset,
           if status == SUCCESS then Some(ExactNs(native.ttfts[i])) else None,
           if status == SUCCESS then seq(|itls|, k requires 0 <= k < |itls| => ExactNs(itls[k])) else [],
           native.inputLens[i], native.outputLens[i], Some(Sha256(native.generatedTexts[i])), i)
  }

  /** And to some, as soon as its own summary is right and its times are in range: no honest
      result is rejected. */
  lemma HonestResultBinds(native: Native) returns (records: seq<Record>, windowNs: nat)
    requires 0 < |native.errors| <= NATIVE_ARRAY_LIMIT && SamePopulation(native, |native.errors|)
    requires native.failed == NonEmptyCount(native.errors) && native.completed + native.failed == |native.errors|
    requires native.totalInputTokens == Sum(native.inputLens) && native.totalOutputTokens == Sum(native.outputLens)
    requires InRange(native.duration) && forall i :: 0 <= i < |native.errors| ==> TimesInRange(native, i)
    ensures Bound(native, records, windowNs)
  {
    hide Subtract, ExactNs, Sum, NonEmptyCount, Earliest;
    var n := |native.errors|;
    records := seq(n, i requires 0 <= i < n => CanonicalRecord(native, i));
    windowNs := ExactNs(native.duration);
    forall i | 0 <= i < n
      ensures RecordBound(native, Earliest(native.startTimes), i, records[i])
    {
      assert TimesInRange(native, i);
      assert records[i] == CanonicalRecord(native, i);
    }
  }

  /** The totals that a native result declares are those of its records: failures, everything
      else, and the tokens of all requests. */
  lemma TotalsAreConserved(native: Native, records: seq<Record>, windowNs: nat)
    requires Bound(native, records, windowNs)
    ensures native.failed == CountStatus(records, FAILED)
    ensures native.completed == CountStatus(records, SUCCESS) + CountStatus(records, ANOMALOUS_EMPTY_STREAM)
    ensures native.totalInputTokens == Tokens(records, true) && native.totalOutputTokens == Tokens(records, false)
  {
    forall i | 0 <= i < |records|
      ensures CountsAlike(native, records, i)
    {
      assert RecordBound(native, Earliest(native.startTimes), i, records[i]);
    }
    hide RecordBound, Earliest, CountsAlike;
    FailuresCounted(native, records, |records|);
    TokensCounted(native, records, |records|);
    assert native.errors[..|records|] == native.errors && records[..|records|] == records;
    assert native.inputLens[..|records|] == native.inputLens && native.outputLens[..|records|] == native.outputLens;
    CountsPartition(records);
  }

  predicate CountsAlike(native: Native, records: seq<Record>, i: nat)
    requires SamePopulation(native, |records|) && i < |records|
  {
    && (records[i].status == FAILED <==> native.errors[i] != "")
    && records[i].inputTokens == native.inputLens[i] && records[i].outputTokens == native.outputLens[i]
  }

  function Tokens(records: seq<Record>, input: bool): nat {
    if records == [] then 0
    else (if input then records[0].inputTokens else records[0].outputTokens) + Tokens(records[1..], input)
  }

  lemma {:induction false} CountStatusAppend(records: seq<Record>, r: Record, status: Status)
    ensures CountStatus(records + [r], status) == CountStatus(records, status) + if r.status == status then 1 else 0
  {
    if records != [] {
      assert (records + [r])[1..] == records[1..] + [r];
      CountStatusAppend(records[1..], r, status);
    } else {
      assert [r][1..] == [];
    }
  }

  lemma {:induction false} TokensAppend(records: seq<Record>, r: Record, input: bool)
    ensures Tokens(records + [r], input) == Tokens(records, input) + if input then r.inputTokens else r.outputTokens
  {
    if records != [] {
      assert (records + [r])[1..] == records[1..] + [r];
      TokensAppend(records[1..], r, input);
    } else {
      assert [r][1..] == [];
    }
  }

  lemma {:induction false} FailuresCounted(native: Native, records: seq<Record>, n: nat)
    requires SamePopulation(native, |records|) && n <= |records| && forall i :: 0 <= i < |records| ==> CountsAlike(native, records, i)
    ensures NonEmptyCount(native.errors[..n]) == CountStatus(records[..n], FAILED)
  {
    if n > 0 {
      FailuresCounted(native, records, n - 1);
      assert native.errors[..n][..n - 1] == native.errors[..n - 1];
      assert records[..n] == records[..n - 1] + [records[n - 1]];
      CountStatusAppend(records[..n - 1], records[n - 1], FAILED);
      assert CountsAlike(native, records, n - 1);
    }
  }

  lemma {:induction false} TokensCounted(native: Native, records: seq<Record>, n: nat)
    requires SamePopulation(native, |records|) && n <= |records| && forall i :: 0 <= i < |records| ==> CountsAlike(native, records, i)
    ensures Sum(native.inputLens[..n]) == Tokens(records[..n], true) && Sum(native.outputLens[..n]) == Tokens(records[..n], false)
  {
    if n > 0 {
      TokensCounted(native, records, n - 1);
      assert native.inputLens[..n][..n - 1] == native.inputLens[..n - 1];
      assert native.outputLens[..n][..n - 1] == native.outputLens[..n - 1];
      assert records[..n] == records[..n - 1] + [records[n - 1]];
      TokensAppend(records[..n - 1], records[n - 1], true);
      TokensAppend(records[..n - 1], records[n - 1], false);
      assert CountsAlike(native, records, n - 1);
    }
  }

  /******* Reduction *******/

  function TtftOf(r: Record): seq<int> {
    if r.status == SUCCESS && r.ttftNs.Some? then [r.ttftNs.value] else []
  }

  /** Observed first-event times of the successful records, in record order. */
  function SuccessTtfts(records: seq<Record>): seq<int> {
    Collected(records, TtftOf)
  }

  lemma {:induction false} TtftPerSuccess(records: seq<Record>)
    requires AllValid(records)
    ensures |SuccessTtfts(records)| == CountStatus(records, SUCCESS)
  {
    if records != [] {
      assert ValidObservations(records[0]);
      TtftPerSuccess(records[1..]);
    }
  }

  function CountStatus(records: seq<Record>, status: Status): (c: nat)
    ensures c <= |records|
  {
    if records == [] then 0 else (if records[0].status == status then 1 else 0) + CountStatus(records[1..], status)
  }

  datatype Measurements = Measurements(
    attempted: nat,
    successful: nat,
    failed: nat,
    anomalous: nat,
    errorRate: Dec,
    p95TtftNs: Option<int>,
    ttftDefinition: Definition)

  /** Which event stops the first-token clock. */
  datatype Definition = FirstChoicesEvent | FirstNonemptyContent

  /** A quotient in the default context. Numerators here have at most six digits. */
  function DefaultQuotient(n: nat, d: nat): Dec
    requires d > 0
  {
    Divide(n, d, Max(DEFAULT_PRECISION, Digits(n)))
  }

  /** Everything that is not SUCCESS counts as failed, anomalies included. */
  function Reduce(records: seq<Record>): (m: Measurements)
    requires records != [] && AllValid(records)
  {
    var ttfts := SuccessTtfts(records);
    var successful := CountStatus(records, SUCCESS);
    var failed := |records| - successful;
    Measurements(
      |records|, successful, failed, CountStatus(records, ANOMALOUS_EMPTY_STREAM),
      DefaultQuotient(failed, |records|),
      if ttfts != [] then Some(NearestRank(ttfts, 95, IntLeq)) else None,
      FirstChoicesEvent)
  }

  lemma {:induction false} CountsPartition(records: seq<Record>)
    ensures CountStatus(records, SUCCESS) + CountStatus(records, FAILED)
            + CountStatus(records, ANOMALOUS_EMPTY_STREAM) == |records|
  {
    if records != [] {
      CountsPartition(records[1..]);
    }
  }

  /******* Native and canonical percentiles agree *******/

  /** Native seconds of the requests that succeeded, from index i on. */
  function NativeSuccessTtfts(native: Native, i: nat): seq<Dec>
    requires SamePopulation(native, |native.errors|) && i <= |native.errors|
    decreases |native.errors| - i
  {
    if i == |native.errors| then []
    else (if NativeStatus(native, i) == SUCCESS then [native.ttfts[i]] else []) + NativeSuccessTtfts(native, i + 1)
  }

  predicate TtftsAgree(native: Native, records: seq<Record>, converted: Dec -> int) {
    && SamePopulation(native, |records|)
    && forall i :: 0 <= i < |records| ==>
         && ValidObservations(records[i])
         && records[i].status == NativeStatus(native, i)
         && (records[i].status == SUCCESS ==> records[i].ttftNs.value == converted(native.ttfts[i]))
  }

  /** What a binding says about outcomes and first-event times. */
  lemma BoundTtfts(native: Native, records: seq<Record>, windowNs: nat)
    requires Bound(native, records, windowNs)
    ensures TtftsAgree(native, records, ExactNs)
  {
    var convert: Dec -> int := ExactNs;
    forall i | 0 <= i < |records|
      ensures ValidObservations(records[i]) && records[i].status == NativeStatus(native, i)
      ensures records[i].status == SUCCESS ==> records[i].ttftNs.value == convert(native.ttfts[i])
    {
      assert RecordBound(native, Earliest(native.startTimes), i, records[i]);
    }
  }

  lemma {:induction false} TtftsAreConverted(native: Native, records: seq<Record>, converted: Dec -> int, i: nat)
    requires TtftsAgree(native, records, converted) && i <= |records| && AllValid(records[i..])
    ensures SuccessTtfts(records[i..]) == Mapped(NativeSuccessTtfts(native, i), converted)
    decreases |records| - i
  {
    if i < |records| {
      assert records[i..][1..] == records[i + 1..];
      TtftsAreConverted(native, records, converted, i + 1);
      MappedCons(native.ttfts[i], NativeSuccessTtfts(native, i + 1), converted);
    }
  }

  lemma MappedCons<T>(x: T, rest: seq<T>, f: T -> int)
    ensures Mapped([x] + rest, f) == [f(x)] + Mapped(rest, f)
    ensures Mapped([] + rest, f) == Mapped(rest, f)
  {
    assert ([x] + rest)[1..] == rest && [] + rest == rest;
  }

  /** The percentile taken over integer nanoseconds is the conversion of the percentile of the
      native decimal seconds: converting first and ranking first give the same answer. */
  lemma RecalculatedP95IsNativeP95(native: Native, records: seq<Record>, windowNs: nat)
    requires Bound(native, records, windowNs)
    ensures AllValid(records)
    ensures var seconds := NativeSuccessTtfts(native, 0);
            Reduce(records).p95TtftNs
            == if seconds == [] then None else Some(ExactNs(NearestRank(seconds, 95, DecLeq)))
  {
    BoundTtfts(native, records, windowNs);
    assert records[0..] == records;
    TtftsAreConverted(native, records, ExactNs, 0);
    ConvertedRank(NativeSuccessTtfts(native, 0));
  }

  lemma ConvertedRank(seconds: seq<Dec>)
    ensures seconds != [] ==>
      NearestRank(Mapped(seconds, ExactNs), 95, IntLeq) == ExactNs(NearestRank(seconds, 95, DecLeq))
  {
    if seconds != [] {
      DecLeqIsTotalPreorder();
      var leq: (Dec, Dec) -> bool, convert: Dec -> int := DecLeq, ExactNs;
      forall x, y | leq(x, y) ensures convert(x) <= convert(y) {
        assert DecLeq(x, y);
        SecondsMonotone(x, y);
      }
      NearestRankCommutes(seconds, 95, leq, convert);
    }
  }

  lemma DecLeqIsTotalPreorder()
    ensures TotalPreorder(DecLeq)
  {
    forall x, y, z | DecLeq(x, y) && DecLeq(y, z) ensures DecLeq(x, z) {
      DecLeqTransitive(x, y, z);
    }
  }
}
