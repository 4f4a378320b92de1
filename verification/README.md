# ExitSpec: verified model of its evidence core

This project models the parts of ExitSpec whose correctness rests on an argument rather than on
one body of code, and proves what they promise. It covers six cores.

* **Confirmation ledger.** Append-only tables of invitations, revocations, decisions and audit
  events; the validator that must pass before each write; the issuing transaction with the
  triggers that guard it; the durable reader; the in-memory reference store with its seven
  dictionaries; and the forward-only migration loop underneath.
* **Assisted authoring.** Calls that reserve a source under a lock, run a provider outside it and
  publish by copy and swap, interleaved at will, with waiting, aliasing, replay and failure.
* **Measurement.** Decimal ratios, seconds to nanoseconds, nearest-rank percentiles, and the
  binding of a producer's native arrays to the canonical request records.
* **Verdicts.** The three-valued managed verdict and the earlier import verdict with its two
  comparison operators.
* **Dispatch and retry.** A durable event history for each transport operation, one lock, one
  reserved successor, and crashes between any two durable steps.
* **Evidence Pack publication.** Racing publishers that claim a directory and write a completion
  marker last, cleaning up step by step, and readers that look at one file at a time.

## How the model is built

Code that changes dictionaries, rows, a log or a directory in place is a class whose methods make
those changes, each proved equal to a step function on values or to an explicit postcondition.
Invariants, whole runs and refinements are lemmas about those step functions. A concurrent
protocol is a state machine: a system value, a list of steps with everything the environment
decides as parameters, and one function that takes a step. A step that its thread is not ready for
changes nothing, so every list of steps is a run.

Names, subjects, hashes and digests are integers or datatype values compared for equality, so
that digests are injective. Clocks, identifiers chosen at random, provider results, owner guards,
commits and input/output failures are parameters of the step that meets them. Rows are sequences
where the code reads rows and sets where no order can matter.

| file | what is in it |
|---|---|
| `Decimals.dfy`, `Measurement.dfy` | decimal arithmetic and exact rounding |
| `Percentiles.dfy`, `Evidence.dfy` | order statistics, native binding, reduction |
| `Verdict.dfy`, `ImportVerdict.dfy`, `VerdictPaths.dfy` | the two verdicts, and the two paths for one bundle |
| `LedgerRecords.dfy`, `LedgerRules.dfy` | rows, and what coherent tables are |
| `LedgerScans.dfy`, `LedgerValidator.dfy`, `Reissues.dfy`, `AuditTrail.dfy` | the validator and what acceptance implies |
| `EventIds.dfy`, `Issuance.dfy`, `LedgerWriter.dfy` | event identities, issuing, the transaction |
| `LedgerReader.dfy`, `Microseconds.dfy` | resolving a token digest; stored timestamps |
| `StoreRules.dfy`, `StoreHistory.dfy`, `ConfirmationStore.dfy`, `StoreSimulation.dfy` | the reference store and its refinement |
| `MigrationRules.dfy`, `Migrations.dfy` | the migration loop and interleaved migrators |
| `AuthoringRules.dfy`, `AuthoringService.dfy`, `AuthoringRuns.dfy`, `AuthoringGuarantees.dfy`, `AuthoringCounterexamples.dfy`, `AuthoringCalls.dfy` | assisted authoring |
| `DispatchRules.dfy`, `OperationLog.dfy`, `DispatchRuns.dfy`, `DispatchGuarantees.dfy`, `DispatchRefinement.dfy` | dispatch and retry |
| `EvidencePack.dfy`, `EvidencePackRuns.dfy`, `EvidencePackRefinement.dfy`, `EvidencePackMarkers.dfy`, `EvidencePackCounterexample.dfy` | Evidence Packs |

## Where the code and its promises part

Each of these is a proved run or value beside the exact condition under which the promise holds.

* **Evidence Pack** (`src/exitspec/generic_evidence_pack.py:53-58`): an interrupted publication is
  said never to be treated as a pack. A reader lists the entries once and reads files afterwards,
  so it can list one publisher's pack and, after that publisher fails and removes it, read a
  second publisher's files before its marker (`UnmarkedPackIsAccepted`). For given publishers and
  readers no run does this if and only if there is at most one publisher or no reader
  (`OwnersWroteMarkersExactly`); read off the records alone, if and only if all publish the same
  or nobody reads (`RecordsWereMarkedExactly`). In one run, the record is that of whoever owned
  the directory when the manifest was read, and the publisher listed always wrote its marker, so
  all is well whenever the listed directory still stands then (`AcceptedRecord`).
* **Decisions before issue** (`src/exitspec/confirmation_store.py:992`): neither the reference
  store nor the decision trigger asks for a decision no earlier than its invitation, while the
  durable reader does. The store records one (`EarlyDecisionIsRecorded`); the reader accepts
  exactly the others (`ReaderAcceptsUnlessEarly`, `ReaderAgreesUnlessEarly`).
* **Idempotency keys of authoring** (`src/exitspec/assisted_authoring.py:1911-1930`): an alias
  looks neither at reservations in flight for its key nor at their number. Two promises suffer.
  A key can be bound to one source and then to another (`KeyIsRebound`). In one run no binding is
  lost if and only if every publication finds its own key unbound (`BindingsKeptExactly`). For a
  given set of calls no run of theirs, however interleaved, ever loses one if and only if no key is
  called with two sources of which one is also called under another key, or the limits have no room
  for two (`BindingsAlwaysKeptExactly`). And more keys than the configured limit can be bound
  (`LimitIsExceeded`): bound keys alone stay within it all through a run if and only if every
  publication that binds a key finds fewer bound than the limit (`BoundKeysStayWithinExactly`).
  Reservations test another quantity, bound keys together with those in flight, and that sum stays
  within the limit if and only if every alias that binds a key would have passed their test
  (`KeysStayWithinExactly`); it never reaches twice the limit (`KeysBelowTwiceLimit`).
* **Reissue chains** (`src/exitspec/confirmation_ledger.py:1249-1293`): the matching of reissues is
  one to one but may be circular (`AcceptedCycle`). A chain of sources returns in exactly the
  coherent ledgers that hold a reissued invitation revoked as REISSUED at the instant of its own
  issue (`ChainsReturnExactly`); that invitation and its source are then each the source of the
  other (`InstantReissueClosesPair`), and every returning chain only goes back and forth between
  two such invitations (`CyclesArePairs`).
* **History check of an operation** (`src/exitspec/inferdrome_dispatch.py:244-249`): it accepts any
  terminal state straight after PREPARED, which no run produces except REFUSED
  (`LegalIsAccepted`).

## How the two verdict paths compare

The import path (`src/exitspec/inferdrome_import.py`) and the managed path
(`src/exitspec/inferdrome_managed_import.py`) never both decide one bundle. An import asks for a
bundle that its contract links and proves nothing from one without a link; the managed path refuses
every bundle with a link before it evaluates anything (`NoBundleIsDecidedTwice`). They answer alike
exactly on the supported handoff when the managed path, too, proves nothing (`PathsAgreeExactly`);
on the handoff whose every request failed, one fails what the other leaves unproven
(`FailedHandoffDivides`). Context validation admits one clock only, which no bundle measures by, so
an import never passes and fails exactly on its errors (`ContentWorkloadsNeverPass`). A managed
contract asks for a hundred successes out of a hundred, so one failed request rules out PASS
(`ManagedHundred`). `CalculationsAgree` compares the two calculations themselves, given measurements
and codes; it is a statement about two functions and not about any bundle.

## Model

| member | source | states |
|---|---|---|
| Decimals.HalfEvenIsTiesToEven | src/exitspec/inferdrome_bundle.py:2306-2327 | the rounding used everywhere returns an integer if and only if it is a nearest one, and the even one of two (roundTiesToEven, section 4.3.1 of IEEE 754-2008) |
| Decimals.HalfEvenMonotone | src/exitspec/inferdrome_bundle.py:2306-2327 | a larger numerator over the same denominator never rounds lower |
| Decimals.DecLeqTransitive | src/exitspec/inferdrome_bundle.py:2300-2303 | the order in which decimals are sorted is transitive whatever their exponents |
| Decimals.QuotientHasPrecisionDigits | src/exitspec/inferdrome_bundle.py:2306-2313 | before rounding, the quotient at the chosen scale lies between the powers of ten that give it exactly the context's number of digits |
| Decimals.QuantizeIgnoresRepresentation | src/exitspec/inferdrome_bundle.py:2306-2327 | rescaling to a fixed exponent depends on the number, not on its trailing zeros |
| Decimals.QuantizeIsTiesToEven | src/exitspec/inferdrome_bundle.py:2306-2327 | rescaling gives the nearest multiple of the new unit, ties to even, and fails exactly when that has more digits than the context |
| Decimals.RoundToPrecisionIsTiesToEven | src/exitspec/inferdrome_bundle.py:2316-2327 | a context rounds a result to the nearest decimal of its digits, ties to even, keeping just that many digits whenever it drops any |
| Decimals.SubtractIsTiesToEven | src/exitspec/inferdrome_bundle.py:1897-1898 | the difference of two times is exact when it fits the context, and otherwise the nearest decimal of the context's digits |
| Decimals.SubtractMonotone | src/exitspec/inferdrome_bundle.py:1897-1898 | subtracting one time from a later one leaves no less, however the two differences are rounded |
| Measurement.NoDoubleRounding | src/exitspec/inferdrome_bundle.py:2306-2313 | rounding first to a finer grid and then to a coarser one equals rounding once, when the finer grid is fine enough for the denominator |
| Measurement.RatioIsExactlyRounded | src/exitspec/inferdrome_bundle.py:2306-2313 | for every non-negative numerator and positive denominator the two-stage ratio is the single half-even rounding of the quotient to six places |
| Measurement.SecondsAreExactlyRounded | src/exitspec/inferdrome_bundle.py:2316-2327 | the working precision always suffices: the conversion is one half-even rounding of the exact product, and fails only out of range |
| Measurement.SecondsKeepUnits | src/exitspec/inferdrome_bundle.py:2316-2327 | whole seconds and whole nanoseconds convert to what they are, up to the largest 64-bit integer |
| Measurement.SecondsMonotone | src/exitspec/inferdrome_bundle.py:2316-2327 | a later instant never converts to fewer nanoseconds |
| Percentiles.NearestRankCounts | src/exitspec/inferdrome_bundle.py:2300-2303 | the value picked by sorting is characterised by counting: fewer than p percent lie before it and at least p percent up to it |
| Percentiles.NearestRankBelow | src/exitspec/inferdrome_bundle.py:2300-2303 | the percentile is under a threshold if and only if at least p percent of the sample is |
| Percentiles.NearestRankCommutes | src/exitspec/inferdrome_bundle.py:2300-2303 | nearest rank commutes with any order-respecting conversion |
| Percentiles.NearestRankOrderFree | src/exitspec/inferdrome_bundle.py:2300-2303 | permuting the sample changes nothing |
| Percentiles.NearestRankMonotone | src/exitspec/inferdrome_bundle.py:2300-2303 | raising values never lowers the percentile |
| Percentiles.CollectedOrderFree | src/exitspec/inferdrome_bundle.py:1943-1946 | collecting over permuted records gives a permuted sample |
| Evidence.ValidateNativeBindings | src/exitspec/inferdrome_bundle.py:1870-1912 | the loop over records accepts if and only if the native arrays bind to the canonical records field by field |
| Evidence.ValidateRecord | src/exitspec/inferdrome_bundle.py:1871-1912 | one record is accepted if and only if status, times, tokens, text digest and index are those of its array position |
| Evidence.Summarize | src/exitspec/inferdrome_bundle.py:1856-1868 | the population summary is the sum, count and earliest start of the arrays |
| Evidence.EarliestIsLeast | src/exitspec/inferdrome_bundle.py:1870 | the first start is a member and no start precedes it |
| Evidence.OffsetsAreTimeSinceFirst | src/exitspec/inferdrome_bundle.py:1870-1898 | a record's offset is the time since the earliest start converted with one rounding, when that fits the context; it is 0 for the earliest |
| Evidence.OffsetsKeepOrder | src/exitspec/inferdrome_bundle.py:1870-1898 | whatever is rounded, a request that started no earlier has no smaller offset |
| Evidence.StatusFollowsStream | src/exitspec/inferdrome_bundle.py:1876-1883 | a bound record failed just when an error was reported, and is anomalous just when, with no error, nothing came |
| Evidence.RecordsAreDetermined | src/exitspec/inferdrome_bundle.py:1870-1912 | one native result binds to at most one sequence of records and one window |
| Evidence.HonestResultBinds | src/exitspec/inferdrome_bundle.py:1856-1912 | every native result whose own summary is right and whose times are in range binds to some records |
| Evidence.TotalsAreConserved | src/exitspec/inferdrome_bundle.py:1856-1868 | the failures, completions and tokens that a bound result declares are those of its records |
| Evidence.ObservationsFollowStatus | src/exitspec/inferdrome_bundle.py:1327-1358 | in a valid record errors, first events, intervals and responses are there as the status demands |
| Evidence.CountsPartition | src/exitspec/inferdrome_bundle.py:1927-1960 | successes, failures and anomalies partition the records |
| Evidence.TtftPerSuccess | src/exitspec/inferdrome_bundle.py:1943-1946 | each successful record contributes exactly one first-event time |
| Evidence.RecalculatedP95IsNativeP95 | src/exitspec/inferdrome_bundle.py:1920-1960 | when the arrays bind, the p95 recalculated from records is the converted nearest-rank p95 of the native seconds of successful requests |
| Verdict.EvaluateApplicability | src/exitspec/inferdrome_managed_import.py:188-260 | each of the fourteen codes is answered exactly when its mismatch is there, once and in canonical order |
| Verdict.IssuesMeanMismatch | src/exitspec/inferdrome_managed_import.py:188-260 | no code at all means the very run and reading asked for; only latency codes means the very run |
| Verdict.VerdictByCounting | src/exitspec/inferdrome_managed_import.py:263-311 | each of the three verdicts, read off the records by counting alone |
| Verdict.LatencyByCounting | src/exitspec/inferdrome_managed_import.py:295-311 | the p95 comparison holds if and only if at least 95 percent of the successful times lie under the threshold |
| Verdict.SlowerIsNoBetter | src/exitspec/inferdrome_managed_import.py:263-311 | raising first-event times never earns a PASS and never clears a FAIL |
| Verdict.VerdictOfMeasurements | src/exitspec/inferdrome_managed_import.py:263-311 | of any measurements: those that do not add up prove nothing, nor does an unknown latency; otherwise errors are judged before the latency |
| Verdict.ReductionIsOrderFree | src/exitspec/inferdrome_bundle.py:1927-1960 | the measurements, and so the verdict, do not depend on record order |
| ImportVerdict.ThresholdIsExact | src/exitspec/inferdrome_import.py:574-583 | a threshold in milliseconds is used if and only if it is a positive whole number of nanoseconds |
| ImportVerdict.MillisecondsKeepUnits | src/exitspec/inferdrome_import.py:574-583 | whole milliseconds and whole nanoseconds are the thresholds they say |
| ImportVerdict.ErrorsCompareExactly | src/exitspec/inferdrome_import.py:459-462 | whatever float the error threshold is, failures are compared with threshold times attempts without rounding |
| ImportVerdict.BasisPointsCompareExactly | src/exitspec/inferdrome_import.py:459-462 | a threshold equal to so many basis points, in whatever decimal form, is compared as basis points |
| ImportVerdict.EvaluateImport | src/exitspec/inferdrome_import.py:292-364 | each of the twelve codes is listed exactly when its condition holds, once and in the order that receipts require |
| ImportVerdict.CodesOfRecords | src/exitspec/inferdrome_import.py:323-364 | the codes about the population, read off the records: wrong number, some anomalous stream, another clock, an unclassifiable failure |
| ImportVerdict.PromptsTakeTurns | src/exitspec/inferdrome_import.py:341-348 | the prompts expected are the workload's in order, again and again |
| ImportVerdict.EndpointIgnoresSlashes | src/exitspec/inferdrome_import.py:310-314 | the endpoint expected disregards slashes at the end of the base and nothing else |
| ImportVerdict.GeneralMeansClosed | src/exitspec/inferdrome_import.py:367-384 | a general code is raised if and only if the bundle did not run what was asked for or a failure is left unclassified |
| ImportVerdict.ImportByCounting | src/exitspec/inferdrome_import.py:367-506 | PASS and FAIL, for both operators and any codes, read off the records by counting alone |
| ImportVerdict.AnomaliesChangeNothing | src/exitspec/inferdrome_import.py:367-384 | the code for anomalous records changes no verdict |
| ImportVerdict.ImportEndToEnd | src/exitspec/inferdrome_import.py:292-506 | PASS and FAIL of an import, with the codes it computes and whatever its clock, read off the bundle and its records |
| ImportVerdict.ContentWorkloadsNeverPass | src/exitspec/performance_evidence.py:353-356 | with the one clock that context validation supports an import fails exactly on its errors and never passes |
| VerdictPaths.ManagedEndToEnd | src/exitspec/inferdrome_managed_import.py:188-311 | the managed verdict, with the codes it computes, read off the bundle and its records |
| VerdictPaths.ManagedHundred | src/exitspec/inferdrome_external_contract.py:91-99 | under a validated managed contract PASS means a hundred successes with 95 times under the threshold, and FAIL is by errors or by slow times of a clean run |
| VerdictPaths.OneHandoffIsAdmitted | src/exitspec/inferdrome_managed_import.py:158-185 | all that the managed path admits for given pins is one digest, run, profile and proof schema, unlinked |
| VerdictPaths.NoBundleIsDecidedTwice | src/exitspec/inferdrome_managed_import.py:158-185 | an import proves nothing from a bundle without a contract link, and the managed path refuses every bundle with one |
| VerdictPaths.PathsAgreeExactly | src/exitspec/inferdrome_managed_import.py:97-142 | the two paths answer one bundle alike if and only if it is the supported handoff and the managed path proves nothing from it either |
| VerdictPaths.CalculationsAgree | src/exitspec/inferdrome_import.py:367-506 | given measurements and codes, with the clock withheld, the two calculations agree if and only if too many errors find both open or both closed, or few errors leave the managed one no latency to judge |
| VerdictPaths.FailedHandoffDivides | src/exitspec/inferdrome_managed_import.py:158-185 | the handoff whose every request failed: FAIL on the managed path, unproven under every import context |
| VerdictPaths.MiscountedIsUnproven | src/exitspec/inferdrome_import.py:323-327 | evidence of the wrong size is unproven on either path |
| LedgerScans.Remember | src/exitspec/confirmation_ledger.py:1190-1200 | the binding dictionary accepts a binding if and only if one fingerprint for each version still holds |
| LedgerScans.ScanInvitations | src/exitspec/confirmation_ledger.py:1039-1055 | accepts exactly the rows without repeated identity or digest and with one fingerprint for each version, and indexes them |
| LedgerScans.ScanRevocations | src/exitspec/confirmation_ledger.py:1057-1065 | accepts exactly one revocation for a stored invitation, none before its issue |
| LedgerScans.ScanEvents | src/exitspec/confirmation_ledger.py:1067-1122 | accepts exactly the events with unique ids and sequences, agreeing references and one fingerprint, and groups creations and revocations by invitation |
| LedgerScans.Refer | src/exitspec/confirmation_ledger.py:1090-1105 | an event keeps references in agreement if and only if its binding is that of earlier events and of the stored invitation, or it is a rejection of an unknown one |
| LedgerValidator.CheckRevocationEvents | src/exitspec/confirmation_ledger.py:1124-1137 | accepts exactly when each revocation event is the one record of a stored revocation |
| LedgerValidator.CheckRevocationsAudited | src/exitspec/confirmation_ledger.py:1139-1141 | accepts exactly when revocations and their events correspond one to one |
| LedgerValidator.ReissueSource | src/exitspec/confirmation_ledger.py:1249-1293 | finds the one source of a reissued invitation, and none exactly when there is no single one; the last audit count is always one |
| LedgerValidator.CheckCreations | src/exitspec/confirmation_ledger.py:1143-1170 | accepts exactly when every creation event explains one invitation, every reissue has one source and no source serves two |
| LedgerValidator.CheckReissuesClaimed | src/exitspec/confirmation_ledger.py:1172-1177 | accepts exactly when reissues and REISSUED revocations are matched |
| LedgerValidator.CheckAllCreated | src/exitspec/confirmation_ledger.py:1179-1185 | accepts exactly when every invitation has its one creation event |
| LedgerValidator.CoherentMeans | src/exitspec/confirmation_ledger.py:1034-1187 | the conditions decided loop by loop amount to the declarative predicate |
| LedgerValidator.ValidateWriteState | src/exitspec/confirmation_ledger.py:1034-1187 | the whole validator accepts exactly the coherent tables without repeated rows, and answers the binding of every version |
| Reissues.AcceptanceIsOrderFree | src/exitspec/confirmation_ledger.py:1034-1187 | acceptance does not depend on row order |
| Reissues.ReissuesAreMatched | src/exitspec/confirmation_ledger.py:1143-1177 | in every coherent ledger reissued invitations and REISSUED revocations are in one-to-one correspondence, hence equally many |
| Reissues.CyclesAreInstantaneous | src/exitspec/confirmation_ledger.py:1259-1275 | a circular chain of sources lies within one instant, each member revoked at its own issue |
| Reissues.InstantReissueClosesPair | src/exitspec/confirmation_ledger.py:1143-1177 | a reissued invitation revoked as REISSUED at its own issue and its source are each the source of the other, and both so revoked |
| Reissues.CyclesArePairs | src/exitspec/confirmation_ledger.py:1143-1177 | every returning chain goes back and forth between two reissued invitations |
| Reissues.ChainsReturnExactly | src/exitspec/confirmation_ledger.py:1143-1177 | a chain of sources returns in exactly the coherent ledgers that hold a reissued invitation revoked as REISSUED at its own issue |
| Reissues.AcceptedCycle | src/exitspec/confirmation_ledger.py:1259-1275 | two invitations, each the source of the other, in a ledger the validator accepts |
| AuditTrail.RevocationIsTold | src/exitspec/confirmation_ledger.py:1124-1141 | in every coherent ledger a revocation is the only one of a stored invitation no younger than itself, and just one event tells it, with its time, its reason and the invitation's binding |
| AuditTrail.RevokingTells | src/exitspec/confirmation_ledger.py:1124-1137 | and a revocation event has its revocation |
| AuditTrail.InvitationIsTold | src/exitspec/confirmation_ledger.py:1143-1185 | an invitation is told by just one issue or reissue, with its time and binding and the reason of its kind |
| AuditTrail.CreationTells | src/exitspec/confirmation_ledger.py:1143-1156 | and an issue or a reissue has its invitation |
| AuditTrail.ReissueReplaces | src/exitspec/confirmation_ledger.py:1249-1293 | a reissue replaces just one stored invitation, of the same contract and no younger, revoked for it at that instant, and nothing else replaces it |
| AuditTrail.RevokedIsReplaced | src/exitspec/confirmation_ledger.py:1172-1177 | and whatever was revoked for a reissue has the reissue that took its place at that instant |
| AuditTrail.NamesAgree | src/exitspec/confirmation_ledger.py:1067-1122 | events have their own identity and number; those that name one invitation carry its binding, only a rejection names one not stored, and a contract version has one fingerprint |
| AuditTrail.InvitationsDiffer | src/exitspec/confirmation_ledger.py:1039-1055 | no two invitations share an identity or a token or differ over a contract version |
| AuditTrail.OtherEventsFitExactly | src/exitspec/confirmation_ledger.py:1067-1122 | a rejection, a decision or the end of a contract goes into a coherent ledger if and only if its identity and number are new, it contradicts no binding, and it names no invitation or one under its binding, stored unless it is a rejection |
| AuditTrail.RevocationIsAbsorbed | src/exitspec/confirmation_ledger.py:1057-1141 | any stored invitation not revoked yet may be revoked from its issue on, for any reason but a reissue, with the event that tells it, and the ledger stays coherent |
| LedgerRules.RowRulesByOutcome | src/exitspec/confirmation_store.py:265-356 | the rules of an audit event, read from its outcome and reason: the types these leave, and the identities each carries |
| LedgerRules.RecordsObeyRules | src/exitspec/confirmation_store.py:265-356 | an event that records an issue, a reissue or a revocation, for whatever reason, obeys the row rules |
| LedgerRules.StoredRevocationsAreValid | src/exitspec/confirmation_ledger.py:1057-1065 | a revocation stored with valid invitations obeys its row rules |
| EventIds.SomeCandidateIsFree | src/exitspec/confirmation_ledger.py:1308-1325 | the canonical id and as many suffixed ones as there are used ids cannot all be taken |
| EventIds.PaddedReadsBack | src/exitspec/confirmation_ledger.py:1308-1325 | the padded number in an id is as wide as asked for and reads back as the sequence |
| EventIds.CandidateAllowed | src/exitspec/confirmation_schema.py:353-362 | every candidate id meets the schema's length and character rules |
| EventIds.SchemaMatchesPattern | src/exitspec/confirmation_store.py:18-18 | the checks of the schema and the pattern of the records let through the same event ids |
| EventIds.NextEventId | src/exitspec/confirmation_ledger.py:1308-1325 | the loop always finds the first free candidate |
| EventIds.NextIdIsUnique | src/exitspec/confirmation_ledger.py:1308-1325 | the next id is determined by the used ids and the sequence |
| EventIds.NextSequence | src/exitspec/confirmation_ledger.py:1296-1305 | one more than the highest sequence, refused only when the database integer is exhausted |
| Issuance.NextEventIsFresh | src/exitspec/confirmation_ledger.py:901-914 | the new event's id and sequence are used by no stored event |
| Issuance.IssuanceKeepsCoherence | src/exitspec/confirmation_ledger.py:817-927 | an admitted invitation and its audit event leave a coherent ledger coherent, orphan rejections included, with every reissue and source as before |
| Issuance.AdmissionIsExact | src/exitspec/confirmation_ledger.py:842-899 | a new invitation passes the guards if and only if the ledger stays coherent with it |
| Issuance.AdmittedIsPermanent | src/exitspec/confirmation_ledger.py:842-899 | once stored, the same request is an exact replay and any other claim to its identity, digest or version is refused |
| Issuance.EmptyLedgerAdmits | src/exitspec/confirmation_ledger.py:817-927 | the first invitation of an empty ledger is admitted, with sequence one and its canonical id |
| Issuance.RefusalsPersist | src/exitspec/confirmation_ledger.py:842-899 | growth of the ledger never turns a refusal into an admission |
| LedgerWriter.NoTriggerFires | src/exitspec/confirmation_schema.py:623-736 | on a validated ledger no constraint or trigger can refuse either insert of an admitted issuance |
| LedgerWriter.FewEvents | src/exitspec/confirmation_ledger.py:1317-1320 | there are no more events than the highest sequence, so id suffixes stay short |
| LedgerWriter.WritesWhole | src/exitspec/confirmation_ledger.py:817-927 | whatever the answer the ledger stays coherent; a failure leaves it alone, and a new invitation brings just itself and the one event that records it |
| LedgerWriter.InsertedRowsReadBack | src/exitspec/confirmation_schema.py:623-736 | a row that the checks let in, with a supported digest, is one that reading accepts |
| LedgerWriter.LedgerTables.constructor | src/exitspec/confirmation_ledger.py:1034-1187 | empty tables may be written |
| LedgerWriter.LedgerTables.InsertInvitation | src/exitspec/confirmation_schema.py:623-676 | inserts exactly what the checks, the replace block and the fingerprint trigger let through |
| LedgerWriter.LedgerTables.InsertEvent | src/exitspec/confirmation_schema.py:644-736 | inserts exactly what the checks, the replace block and the fingerprint trigger let through |
| LedgerWriter.LedgerTables.ReadWriteState | src/exitspec/confirmation_ledger.py:946-1031 | succeeds exactly when every row is valid and the tables are acceptable |
| LedgerWriter.LedgerTables.FindInvitation | src/exitspec/confirmation_ledger.py:834-841 | the stored row of an identity, if there is one |
| LedgerWriter.LedgerTables.ReferencedBinding | src/exitspec/confirmation_ledger.py:856-863 | the binding of an audit event that names the identity, if one does |
| LedgerWriter.LedgerTables.AuditDisagrees | src/exitspec/confirmation_ledger.py:856-870 | looking at the first event decides whether any names the identity under another binding |
| LedgerWriter.LedgerTables.DigestTaken | src/exitspec/confirmation_ledger.py:872-886 | the owners of the digest are none or one |
| LedgerWriter.LedgerTables.Refusal | src/exitspec/confirmation_ledger.py:856-899 | the error that stops a request, none exactly when it is admitted |
| LedgerWriter.LedgerTables.IssueInvitation | src/exitspec/confirmation_ledger.py:452-499 | replays, refuses, or writes the invitation and its event together; keeps the tables writable; leaves them untouched on any failure |
| LedgerReader.Snapshot.ReadInvitations | src/exitspec/confirmation_ledger.py:298-312 | accepts exactly supported digests with one fingerprint for each version |
| LedgerReader.Snapshot.ReadDecision | src/exitspec/confirmation_ledger.py:1629-1670 | corruption if and only if the version has several decisions or one that does not fit its single stored invitation, its interval and its single revocation; otherwise the decision, if there is one |
| LedgerReader.Snapshot.Classify | src/exitspec/confirmation_ledger.py:327-353 | unavailable, for anything contradictory or repeated, before revoked before consumed before expired |
| LedgerReader.Snapshot.ResolveInvitation | src/exitspec/confirmation_ledger.py:246-355 | a digest of several rows makes the ledger unavailable, one of none resolves to nothing, one of a single row to its classification |
| LedgerReader.ActiveExactly | src/exitspec/confirmation_ledger.py:298-355 | an invitation resolves as active if and only if stored digests are supported and versions have one binding, and it alone has the digest, unexpired, never revoked and undecided |
| LedgerReader.NothingExactly | src/exitspec/confirmation_ledger.py:298-327 | nothing is found if and only if stored digests are supported, versions have one binding, and no invitation has the digest |
| LedgerReader.AnswersInTurn | src/exitspec/confirmation_ledger.py:327-355 | any other answer but unavailable is by revocation, then decision, then expiry, and vouches that the rows it rests on are single, in order and in force |
| LedgerReader.AcceptedReadsBack | src/exitspec/confirmation_ledger.py:246-355 | tables that the validator accepts, with decisions taken in force, are never called unavailable: the answer is the one in turn |
| LedgerReader.ReaderAgreesUnlessEarly | src/exitspec/confirmation_ledger.py:1651-1660 | on the same facts the durable reader and the reference store give one answer, except that an early decision makes the ledger unavailable |
| Microseconds.RoundTrips | src/exitspec/confirmation_ledger.py:732-741 | encoding and decoding instants are inverse both ways, refuse exactly what precedes the epoch, and keep order |
| ConfirmationStore.InMemoryStore.constructor | src/exitspec/confirmation_store.py:891-911 | the empty store is consistent |
| ConfirmationStore.InMemoryStore.IssueInvitation | src/exitspec/confirmation_store.py:913-942 | updates the three invitation maps as the step function says and keeps all seven consistent |
| ConfirmationStore.InMemoryStore.InvitationForDigest | src/exitspec/confirmation_store.py:1068-1076 | the linear scan returns what the digest index holds |
| ConfirmationStore.InMemoryStore.ResolveInvitation | src/exitspec/confirmation_store.py:951-966 | nothing, consumed, expired, or the invitation |
| ConfirmationStore.InMemoryStore.CheckFirstWrite | src/exitspec/confirmation_store.py:980-1013 | the first obstacle to a new operation, in the order checked |
| ConfirmationStore.InMemoryStore.ReplayOrConflict | src/exitspec/confirmation_store.py:1044-1066 | the recorded decision as a replay, or a conflict; its lookups cannot fail |
| ConfirmationStore.InMemoryStore.RecordDecision | src/exitspec/confirmation_store.py:968-1033 | replays, refuses, or records a decision in five maps, keeping all seven consistent |
| ConfirmationStore.InMemoryStore.GetDecision | src/exitspec/confirmation_store.py:1035-1042 | finds a decision for a binding exactly when one is stored by id |
| StoreHistory.IssueKeepsConsistent | src/exitspec/confirmation_store.py:913-942 | issuing keeps the seven maps consistent |
| StoreHistory.DecideKeepsConsistent | src/exitspec/confirmation_store.py:968-1033 | recording keeps the seven maps consistent |
| StoreHistory.FirstWriteFacts | src/exitspec/confirmation_store.py:980-1013 | a first write finds its digest, key, binding and identity unused and its invitation stored, matching and unexpired |
| StoreHistory.NewOperationExactly | src/exitspec/confirmation_store.py:980-1033 | a new operation is recorded if and only if its key is unused and it presents an unexpired, matching, undecided invitation with a sound payload; each refusal names the first of these that fails |
| StoreHistory.RecordedIsSound | src/exitspec/confirmation_store.py:197-219 | after any calls a recorded confirmation was acknowledged, a request for changes has a rationale, and every decision was taken in time on its own invitation |
| StoreHistory.ReplayLookups | src/exitspec/confirmation_store.py:1056-1057 | a recorded operation always leads to a stored decision and a stored invitation |
| StoreHistory.RunGrows | src/exitspec/confirmation_store.py:891-1033 | over any run no entry of the seven maps is removed or replaced |
| StoreHistory.OneDecisionPerVersion | src/exitspec/confirmation_store.py:1006-1013 | a contract id and version has at most one decision |
| StoreHistory.DecisionIsPermanent | src/exitspec/confirmation_store.py:968-1033 | that decision is the same after any further calls |
| StoreHistory.ResubmissionReplays | src/exitspec/confirmation_store.py:973-978 | an accepted command resubmitted after any calls, at any time, returns the first decision as a replay and changes nothing |
| StoreHistory.OperationNeverTwoDecisions | src/exitspec/confirmation_store.py:1044-1066 | two accepted commands with one operation digest are answered with one decision and agree on everything compared |
| StoreHistory.DecidedIsClosed | src/exitspec/confirmation_store.py:951-966 | once decided an invitation resolves as consumed for ever and no new operation is accepted for its version |
| StoreHistory.ReaderAcceptsUnlessEarly | src/exitspec/confirmation_ledger.py:1651-1660 | of the recorded decisions the durable reader accepts exactly those no earlier than the issue |
| StoreHistory.EarlyDecisionIsRecorded | src/exitspec/confirmation_store.py:992 | a run that records a decision before its invitation was issued |
| StoreSimulation.EventsNameStored | src/exitspec/confirmation_ledger.py:1143-1185 | in related states every event is the issuance event of a stored invitation |
| StoreSimulation.IssueSimulates | src/exitspec/confirmation_ledger.py:834-927 | from related states the writer and the reference store give the same success, replay or error and reach related states, unless the sequence is exhausted |
| StoreSimulation.RunSimulates | src/exitspec/confirmation_store.py:913-942 | the same over whole runs of requests |
| StoreSimulation.EmptyStatesRelated | src/exitspec/confirmation_store.py:891-911 | both begin related |
| MigrationRules.HistoryErrorExact | src/exitspec/confirmation_sqlite.py:1328-1341 | validation accepts exactly the histories that are prefixes of the plan, never looking past its end |
| MigrationRules.PastEndExactly | src/exitspec/confirmation_sqlite.py:1328-1341 | on rows in any order the check looks past the end of the plan if and only if the whole plan is recorded, the next row continues it, and the last row is within it |
| MigrationRules.AscendingStaysInside | src/exitspec/confirmation_sqlite.py:1304-1341 | rows read in ascending order never lead there, whatever they hold |
| MigrationRules.TurnKeeps | src/exitspec/confirmation_sqlite.py:823-876 | one turn extends the history by one version or changes nothing, and the schema stays what the history records |
| MigrationRules.CommitsExactly | src/exitspec/confirmation_sqlite.py:823-876 | a migration commits if and only if it is the next of a plan that extends the history, its statements keep off the history, temporary objects and transactions, and nothing fails |
| MigrationRules.EachCommitsOnce | src/exitspec/confirmation_sqlite.py:823-876 | through any failures and competing migrators every version commits exactly once, in order |
| MigrationRules.PlanIsFollowed | src/exitspec/confirmation_sqlite.py:807-876 | migrators on prefixes of one plan keep the history a prefix of it and the schema the fold of that prefix |
| MigrationRules.NothingForbiddenRuns | src/exitspec/confirmation_sqlite.py:1344-1361 | whatever plans compete, no statement that reaches the history, a temporary object or a transaction ever gets into the schema |
| MigrationRules.DivergedPlanIsRefused | src/exitspec/confirmation_sqlite.py:1328-1341 | a plan that does not extend the history changes nothing and is refused |
| MigrationRules.PermittedPlanCompletes | src/exitspec/confirmation_sqlite.py:807-876 | left alone with permitted statements a migrator ends with its whole plan applied |
| Migrations.Connection.ExecuteMigration | src/exitspec/confirmation_sqlite.py:1344-1361 | runs all statements or fails, never writes the history, and restores the mode however it ends |
| Migrations.Connection.InsertHistory | src/exitspec/confirmation_sqlite.py:840-866 | the one history write, in its own mode, which is left again |
| Migrations.Connection.ValidateHistory | src/exitspec/confirmation_sqlite.py:1328-1341 | the loop gives the first disagreement with the plan |
| Migrations.Connection.ApplyNext | src/exitspec/confirmation_sqlite.py:823-876 | a transaction that commits the next migration or leaves no trace |
| Migrations.Connection.ApplyMigrations | src/exitspec/confirmation_sqlite.py:807-876 | terminates among competing migrators; on success the history is the plan; whatever it did is a run of attempts |
| AuthoringRules.ReserveAnswers | src/exitspec/assisted_authoring.py:1813-1897 | a replay is of the source's published attempt, and of the caller's own request unless its key is bound; whoever waits for another key waits for its own request; a reservation is of a key and source nobody holds or published; the state is never inconsistent |
| AuthoringRules.ReserveAnswersExactly | src/exitspec/assisted_authoring.py:1813-1897 | when each answer is given: a known key is judged by its source, a new key by the whole request its source is held or published for, and capacity last |
| AuthoringRules.AliasAnswersExactly | src/exitspec/assisted_authoring.py:1956-1978 | an alias is refused exactly for a key bound otherwise or a new key without room, and binds no other key |
| AuthoringRules.ReserveKeepsSound | src/exitspec/assisted_authoring.py:1813-1897 | reserving keeps the maps' invariant |
| AuthoringRules.AliasKeepsSound | src/exitspec/assisted_authoring.py:1956-1978 | aliasing keeps the maps' invariant |
| AuthoringRules.PublishKeepsSound | src/exitspec/assisted_authoring.py:2173-2218 | publishing keeps the maps' invariant, of a source and receipt not published before |
| AuthoringRules.ReleaseKeepsSound | src/exitspec/assisted_authoring.py:2245-2261 | releasing keeps the maps' invariant |
| AuthoringRules.ReleaseUndoesReserve | src/exitspec/assisted_authoring.py:2245-2261 | releasing what was just reserved restores the maps |
| AuthoringRules.PublishRebinds | src/exitspec/assisted_authoring.py:2200-2215 | a publication keeps every key's binding if and only if its own key was unbound |
| AuthoringRules.AliasWithinLimit | src/exitspec/assisted_authoring.py:1968-1972 | after one alias the keys are within the limit if and only if bound keys had reached it already, which refuses the alias, or the reservation test would have passed |
| AuthoringService.Service.Reserve | src/exitspec/assisted_authoring.py:1813-1897 | the reservation section changes the two in-flight maps as the step says |
| AuthoringService.Service.PublishAlias | src/exitspec/assisted_authoring.py:1956-1978 | binds a key after the owners commit, and nothing when they do not |
| AuthoringService.Service.Publish | src/exitspec/assisted_authoring.py:2169-2218 | swaps in all five copies, or leaves every map when the owners fail or the reservation is gone |
| AuthoringService.Service.Release | src/exitspec/assisted_authoring.py:2245-2261 | removes the caller's own reservation from both maps |
| AuthoringRuns.StepKeepsInvariant | src/exitspec/assisted_authoring.py:1785-2261 | every step of every caller keeps the maps sound, each reservation owned by one caller, and every answer published |
| AuthoringGuarantees.InitialInvariant | src/exitspec/assisted_authoring.py:1430-1527 | a new service satisfies the invariant |
| AuthoringGuarantees.RunKeepsInvariant | src/exitspec/assisted_authoring.py:1785-2261 | every interleaving satisfies it |
| AuthoringGuarantees.EveryInterleaving | src/exitspec/assisted_authoring.py:1785-2261 | after any interleaving of any number of calls: one answer for each source, one caller at work on it, every answer but a replay under a bound key for the caller's own request, both capacity bounds, and no reservation left once none is at work |
| AuthoringGuarantees.SameAnswer | src/exitspec/assisted_authoring.py:1785-2261 | all successful callers on one source have one receipt and one set of proposals |
| AuthoringGuarantees.AsksForOwn | src/exitspec/assisted_authoring.py:1869-1875 | what a caller reserves, publishes or binds its key to is for the very request it asked; only a key bound already is answered for its source alone |
| AuthoringGuarantees.OneExecution | src/exitspec/assisted_authoring.py:1869-1897 | at most one caller works on a source, and none once it is published |
| AuthoringGuarantees.PublishedForever | src/exitspec/assisted_authoring.py:2173-2218 | no published result is ever erased or replaced by another publication |
| AuthoringGuarantees.OnlyCommitsPublish | src/exitspec/assisted_authoring.py:2173-2218 | only committed publications and aliases change the published maps; any other step, failures included, leaves them |
| AuthoringGuarantees.UnwindReleasesOwn | src/exitspec/assisted_authoring.py:2245-2261 | a failing caller removes exactly its own reservation |
| AuthoringGuarantees.FailureUnwinds | src/exitspec/assisted_authoring.py:2245-2261 | from any point of its work a caller that fails ends without its reservation and changes nothing else |
| AuthoringGuarantees.AliasOutcome | src/exitspec/assisted_authoring.py:1956-1978 | a replay under a new key succeeds if and only if the key was bound to the answer meanwhile, or the owners commit and there is room; a success leaves it so bound, a failure changes nothing |
| AuthoringGuarantees.ReplayOutcome | src/exitspec/assisted_authoring.py:2006-2058 | a replay under a bound key binds nothing |
| AuthoringGuarantees.ReservationHasOwner | src/exitspec/assisted_authoring.py:1889-1897 | every reservation belongs to a call still running |
| AuthoringGuarantees.NothingLeftBehind | src/exitspec/assisted_authoring.py:2245-2261 | once all calls have returned no reservation is left |
| AuthoringGuarantees.KeysBelowTwiceLimit | src/exitspec/assisted_authoring.py:1879-1888 | sources stay within their limit, and keys below twice theirs |
| AuthoringGuarantees.KeysStayWithinExactly | src/exitspec/assisted_authoring.py:1884-1888 | in every run from the start, bound and in-flight keys together stay within the configured limit throughout if and only if every alias that binds a key finds room as a reservation would |
| AuthoringGuarantees.BoundKeysStayWithinExactly | src/exitspec/assisted_authoring.py:2200-2201 | in every run from the start, bound keys alone stay within the configured limit throughout if and only if every publication that binds a key finds fewer bound than the limit |
| AuthoringGuarantees.BindingsKeptExactly | src/exitspec/assisted_authoring.py:2200-2215 | in every run from the start no binding is ever lost or replaced if and only if every publication finds its own key unbound |
| AuthoringGuarantees.KeysArePermanent | src/exitspec/assisted_authoring.py:1956-1978 | with one source for each key a bound key keeps its receipt over any run |
| AuthoringCounterexamples.LimitIsExceeded | src/exitspec/assisted_authoring.py:1968-1978 | a run after which three keys are bound under a limit of two |
| AuthoringCounterexamples.KeyIsRebound | src/exitspec/assisted_authoring.py:1911-1930 | for any key called with two sources, one of them also called under another key, a run that binds it to the first, answers so, and then binds it to the second |
| AuthoringCalls.AliasOfReserved | src/exitspec/assisted_authoring.py:1956-1978 | an alias binds a key that another source has in flight only after calls that clash, within limits that have room for two |
| AuthoringCalls.BindingsAlwaysKeptExactly | src/exitspec/assisted_authoring.py:1813-2218 | no run whatever of a set of calls ever loses or replaces a binding if and only if the calls cannot clash within the limits |
| DispatchRules.LegalIsAccepted | src/exitspec/inferdrome_dispatch.py:226-258 | readers accept just the legal histories and those that jump from PREPARED to a terminal state |
| DispatchRules.RetryableExactly | src/exitspec/inferdrome_dispatch.py:380-386 | another attempt is allowed exactly after the first two, when the history ended refused, failed, timed out, cancelled, over its output limit, with an invalid result or rejected at ingestion, and under control |
| DispatchRules.Status | src/exitspec/inferdrome_dispatch.py:226-258 | the loop accepts exactly those histories and answers the last event |
| OperationLog.OperationDirectory.Dispatch | src/exitspec/inferdrome_dispatch.py:692-742 | touches only a PREPARED operation, and ends with the history of how far it got |
| OperationLog.DispatchOutcome | src/exitspec/inferdrome_dispatch.py:692-742 | a dispatch records a launch just when the producer was launched and an end just when it saw one, and allows another attempt just when it refused or saw an end under control and short of admission |
| OperationLog.OperationDirectory.Retry | src/exitspec/inferdrome_dispatch.py:377-424 | answers the one successor, reserved before or now, next in number, with the same inputs and another identity; refuses exactly when the history did not end short of admission and under control, the attempt is the third, or the reservation found is not of this plan, and then changes nothing |
| DispatchRefinement.RetryIsARun | src/exitspec/inferdrome_dispatch.py:353-438 | what a sequential retrier leaves, from its lock through the reservation to the last part of the successor it made before it died, is a run of the concurrent system |
| DispatchRefinement.DeadRetrierInterrupts | src/exitspec/inferdrome_dispatch.py:353-438 | a retrier that dies with the successor begun and not PREPARED leaves it interrupted |
| DispatchRefinement.PreparationIsARun | src/exitspec/inferdrome_dispatch.py:323-374 | what a sequential preparer leaves, up to the last part it made before it died, is a run of the concurrent system, under any identity never chosen before |
| DispatchRefinement.DispatchIsARun | src/exitspec/inferdrome_dispatch.py:692-742 | what the sequential dispatcher does, dead or alive, is a run of the concurrent system |
| DispatchRuns.StepKeepsInvariant | src/exitspec/inferdrome_dispatch.py:353-438 | every step of preparers, dispatchers and retriers, crashes included, keeps directories legal, locks exclusive and lineage matched |
| DispatchGuarantees.InitialInvariant | src/exitspec/inferdrome_dispatch.py:323-350 | an empty operations root satisfies the invariant |
| DispatchGuarantees.RunKeepsInvariant | src/exitspec/inferdrome_dispatch.py:353-438 | every run satisfies it |
| DispatchGuarantees.OperationIsLegal | src/exitspec/inferdrome_dispatch.py:692-742 | in every run an operation launches at most once and has one of the four histories, which every reader accepts; without a launch it ends only failed or cancelled, and out of control only failed |
| DispatchGuarantees.RunIsDurable | src/exitspec/inferdrome_dispatch.py:170-204 | no event, plan, reservation or launch is ever lost or rewritten |
| DispatchGuarantees.AbandonedForever | src/exitspec/inferdrome_dispatch.py:377-386 | an operation whose dispatcher died while RUNNING is never launched, finished or retried again |
| DispatchGuarantees.InterruptedForever | src/exitspec/inferdrome_dispatch.py:425-437 | an interrupted successor stays as it is under all later steps: no readable status, so every later retry is refused, and no launch |
| DispatchGuarantees.LineageIsOver | src/exitspec/inferdrome_dispatch.py:425-437 | and its lineage is over: it never grows past the interrupted successor and never launches again |
| DispatchGuarantees.ReservationHolds | src/exitspec/inferdrome_dispatch.py:387-409 | a reservation read back always passes its checks, and a retry holds exactly the reserved plan |
| DispatchGuarantees.OneSuccessor | src/exitspec/inferdrome_dispatch.py:387-438 | repeated or interrupted retries never make a second successor |
| DispatchGuarantees.LineageIsShort | src/exitspec/inferdrome_dispatch.py:380-386 | a lineage has at most three attempts, and every one but the last ended short of admission and under control |
| DispatchGuarantees.ChainsDoNotFork | src/exitspec/inferdrome_dispatch.py:377-438 | lineages from one first attempt are beginnings of one chain |
| DispatchGuarantees.ThreeLaunchesPerLineage | src/exitspec/inferdrome_dispatch.py:377-438 | a lineage launches its producer at most three times |
| EvidencePack.AcceptableIsOnePack | src/exitspec/generic_evidence_pack.py:163-245 | verification accepts exactly the six entries of one payload, up to the rendering of its packet |
| EvidencePack.Root.Publish | src/exitspec/generic_evidence_pack.py:86-160 | leaves an existing pack alone; otherwise a complete pack and its record, or nothing, or after the last fault the pack without a record |
| EvidencePack.Root.Verify | src/exitspec/generic_evidence_pack.py:163-245 | the loops accept exactly the acceptable directories and answer their manifest and packet |
| EvidencePack.VerifiesAsPublished | src/exitspec/generic_evidence_pack.py:152-160 | a published pack verifies with its publisher's record, and no incomplete one verifies |
| EvidencePackRuns.StepKeepsInvariant | src/exitspec/generic_evidence_pack.py:86-245 | every step of racing publishers and readers keeps each file its owner's and each reader's data one publisher's |
| EvidencePackMarkers.ListedWroteMarker | src/exitspec/generic_evidence_pack.py:175-179 | in every run a reader lists only a publisher that wrote its marker |
| EvidencePackMarkers.SomeStepDecides | src/exitspec/generic_evidence_pack.py:181-245 | every acceptance goes back to one reading of a manifest, and the record is that of the owner of the directory at that moment |
| EvidencePackMarkers.AcceptedRecord | src/exitspec/generic_evidence_pack.py:163-245 | an accepted record is the owner's at the reading of the manifest; the publisher listed wrote its marker, and removed its directory if it is not that owner; the record is its own if and only if both publish the same |
| EvidencePackRuns.ListingMeansComplete | src/exitspec/generic_evidence_pack.py:175-179 | the entry set is whole only when the directory is the complete pack of its owner |
| EvidencePackRuns.LosersTouchNothing | src/exitspec/generic_evidence_pack.py:118-124 | a publisher that does not own the directory never changes it |
| EvidencePackRuns.MayEndAnyTime | src/exitspec/generic_evidence_pack.py:138-151 | a publication may fail or die at any moment until it returns, and from then on only cleans up or does nothing |
| EvidencePackRuns.DirectoryComesAndGoesEmpty | src/exitspec/generic_evidence_pack.py:114-151 | the directory appears empty, at a claim, and goes only when empty again, by the hand of a publisher that is cleaning up |
| EvidencePackRuns.AnswerIsFinal | src/exitspec/generic_evidence_pack.py:163-245 | a reader may refuse at any moment until it has accepted, and its answer is final |
| EvidencePackRuns.PublishedStands | src/exitspec/generic_evidence_pack.py:136-142 | a publication that succeeded has its whole directory in place |
| EvidencePackRuns.PublishedForever | src/exitspec/generic_evidence_pack.py:86-151 | and it stands unchanged for ever |
| EvidencePackRuns.OneWinner | src/exitspec/generic_evidence_pack.py:118-124 | at most one publication succeeds |
| EvidencePackRuns.StandingPackVerifies | src/exitspec/generic_evidence_pack.py:163-245 | a reader that listed a pack which still stands returns that publisher's record |
| EvidencePackRefinement.QuietPublication | src/exitspec/generic_evidence_pack.py:118-142 | undisturbed, a racing publisher leaves what the sequential publication leaves |
| EvidencePackRefinement.QuietVerification | src/exitspec/generic_evidence_pack.py:163-245 | undisturbed, a step-by-step reader accepts exactly the acceptable directories, with the same record |
| EvidencePackCounterexample.UnmarkedPackIsAccepted | src/exitspec/generic_evidence_pack.py:53-58 | for any two publishers and a reader, a run in which a publication that died before its marker is accepted |
| EvidencePackCounterexample.OwnersWroteMarkersExactly | src/exitspec/generic_evidence_pack.py:53-58 | no run accepts what an unmarked publisher left if and only if there is at most one publisher or no reader |
| EvidencePackCounterexample.RecordsWereMarkedExactly | src/exitspec/generic_evidence_pack.py:53-58 | every accepted record is that of a publisher that wrote its marker if and only if all publish the same or nobody reads |

## Left out

- Filesystem and process mechanics: no-follow reads, synchronization, process groups, pipes and archive extraction appear only as success or failure of a step.
- SQLite itself, its pragmas, descriptor checks and the comparison of schema text: constraints and triggers are guards on inserts, transactions are all or nothing.
- A COMMIT whose outcome is unknown: the issuing transaction either commits or rolls back.
- Hashing, JSON canonicalization, schema validation and string formats: digests are injective, and bytes that do not parse are one more value.
- A reader of an Evidence Pack iterates the directory twice, for names and for kinds of entries: the model lists it once.
- The pinned identities of the managed handoff: they are parameters, so the theorems hold for any pins.
- Size limits of Evidence Pack artifacts and manifests: a publisher's own bytes are taken to be within them.
- Redaction, provider requests and receipts, and the content rules of proposals: a provider execution is an arbitrary result or failure.
- Wait deadlines in authoring: waiting is a step that may be repeated or given up.
- Exceptions outside Python's Exception hierarchy while a reservation is held: they would leave it behind.
- The source-authoring publication guard of the authoring service: its writer is not part of this model.
- Exponent limits of decimal contexts: decimals here have unbounded exponents.
- Timestamps past the range of a datetime: stored microseconds are unbounded.
- Revoking, reissuing and recording decisions in the durable ledger: only issuing and reading have an implementation there.
- Directory fields and display text of operations that no check compares: they travel with the plan as one value.
- Run identifiers of operations: they change with the operation identifier and are not modelled apart from it.
- Validation of the context of an import: what it establishes about counts, retries, prompts and thresholds is a hypothesis of the theorems about imports.
- HTML rendering, command line, web composition, dashboards and contract lifecycle transitions: presentation or one-branch facts.
- Issuance.RefusalsPersist: states one direction, since growth may refuse what was admitted before.
- AuthoringService.Service.PublishAlias: takes for granted that the replayed attempt is published, which every interleaving guarantees.
