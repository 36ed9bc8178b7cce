# A verified model of Contextio

A Dafny model of the parts of Contextio where a wrong answer moves money or breaks an audit trail, with
proofs of what those parts promise. `dafny verify dfyconfig.toml` checks everything.

| part | modules |
|---|---|
| canonical JSON, its reader, and what a canonical text determines | `Texts`, `Json`, `CanonicalJson`, `JsonReader`, `CanonicalForm`, `CanonicalOrder` |
| legal contexts: schema, document, hashes, publishing, binding | `Schema`, `LegalDocument`, `LegalContext`, `LegalHistory`, `LegalBinding`, `LegalPublishing`, `LegalRequest`, `LegalService` |
| treasury rows against the on-chain ledger | `Treasury`, `TreasuryContract`, `TreasuryLedger`, `TreasuryVenues`, `TreasuryDuplicates`, `TreasuryService` |
| payroll: calendar, worker ticks, forecast, contract, and what runs pay and record | `Cadence`, `PayrollSchedules`, `PayrollRuns`, `PayrollWorker`, `PayrollForecast`, `PayrollContract`, `PayrollSettlement`, `PayrollPayouts`, `PayrollPayees`, `PayrollRhythm`, `PayrollBackoff` |
| decimal strings, 40-digit arithmetic, the rate callback | `Money`, `DecimalArithmetic`, `Rate`, `RateHandler` |
| the worker's scheduler and its task offsets | `Scheduler`, `SchedulerStarts`, `WorkerSchedule` |
| customer index, smart-account rules, yield band | `Customers`, `SmartAccount`, `YieldBand` |
| shared mathematics | `Wrappers`, `Sequences`, `Arithmetic`, `Decimals`, `Sums` |

Code that changes state is a class whose methods are tied to a step function on values; what the system
promises is then proved of that function, over whole histories, and what a step does is said a second time
without the function: by index, by key, by position. Expressions stay functions. The world
(database refusals, lost transactions, clocks, random ids, the price oracle, SHA-256) enters as parameters.
A database write either happens or is refused with an error; one that happens although its reply is lost is
not modelled, while transactions on the network can end that way.

How some things are modelled:

- A JavaScript string is a sequence of UTF-16 units and compares by them. A number is a sign, its shortest
  digits and a decimal point, laid out as in section 6.1.6.1.20 of ECMA-262; RFC 8785, sections 3.2.2 and
  3.2.3, asks for the same text. The platform's and the SDK's `canonicalize` are the same function, so one
  model stands for both.
- Storage of a document as `jsonb` is any function that keeps the document up to key order
  (`LegalContext.KeepsDocuments`).
- The unique index `uq_positions_bucket` (supabase/migrations/0001_init.sql:87-88) is the assumption
  `Treasury.UniqueBuckets`; `TreasuryDuplicates` does without it. Amounts of a rebalance are non-negative
  because the route accepts only digits (apps/api/src/http/schemas.ts:65-71).
- Contract integers are `i128` and `u32` subset types with an explicit overflow trap (the release profile keeps
  overflow checks on). `bigint` and base units are unbounded.
- A run of the worker is a sequence of ticks with non-decreasing clocks; how each execution ends (settled,
  moved on but not audited, failed on-chain, thrown without saving the row, simulated) is chosen freely in
  `PayrollRuns`. In `PayrollPayouts` and `PayrollBackoff` it is derived: every execution is a payout and a record on the network,
  each of which can fail or land unheard of, followed by the database writes.

Where the code and its comments part ways, the code is modelled and the difference is a lemma:

- The rate handler says its price reproduces the sell amount regardless of magnitude
  (apps/anchor-business/src/rate.ts:138-141). It does while 1.5 sold + 5 * 10^8 bought stays within 10^32
  (`Rate.RatePassesPlatformCheck`), which is about 2 * 10^23 bought; at 1.46 * 10^24 it does not
  (`Rate.LargeAmountsFail`), and in between it depends on the digits. In terms of the request:
  `Rate.RequestPassesIff`.
- Every publish is said to leave older bindings verifiable (apps/api/src/services/legalContextService.ts:40-43). The
  row is overwritten, so a binding verifies against what is stored exactly while the version stays the same
  (`LegalBinding.BindingVerifiesIff`).
- The self-custody payroll path asks for a consent that no published context contains
  (apps/api/src/services/payrollService.ts:327-330), so it never binds (`LegalBinding.PrepareRunNeverBinds`).
- The guard is meant to keep database and chain together (apps/api/src/services/treasuryService.ts:237-239). For a
  move that the contract accepts they stay together exactly when its reply is heard, the debit is stored, one
  side is liquidity, and the credit is stored unless it is liquidity that is credited
  (`TreasuryLedger.GapsKeptIff`).
- A schedule without consent is said to be skipped (apps/worker/src/jobs/scheduledPayroll.ts:5-7). It throws, which ends
  the tenant's loop: a schedule is tried exactly when everything listed before it returns
  (`PayrollSchedules.TriedIff`, `PayrollRuns.StarvesIff`). Each tick that ends so can cost the schedules behind
  it one more tick (`PayrollRuns.WaitingIsBounded`), and one that always does blocks them for good
  (`PayrollRuns.RefusalStarves`).
- The rhythm of a schedule is said not to drift (apps/api/src/services/payrollService.ts:255-257). A success does
  step on from the date scheduled, but an on-chain failure moves that date to an hour after the failure, and later
  successes step on from there (`PayrollRhythm.OneFailureDrifts`). The rhythm is kept exactly when no failure was
  backed off (`PayrollRhythm.RhythmKeptIff`); for a monthly schedule past day 28 that is enough
  (`PayrollRhythm.OnTimeWithoutFailures`) but not needed (`PayrollRhythm.LateButMeets`).
- A failed run is said not to be retried on every tick (apps/api/src/services/payrollService.ts:16-25). An on-chain
  failure is backed off exactly when the two database writes after it are taken (`PayrollBackoff.BacksOffIff`). Then
  failures are an hour apart (`PayrollBackoff.ChainFailuresSpaced`); otherwise the next tick fails again
  (`PayrollBackoff.RefusedWriteRetries`).
- A run id is said to settle once "rather than paying twice" (contracts/payroll/src/lib.rs:4-6). The record does
  (`PayrollContract.NoRunTwice`); the payout is sent before it, and a retry draws a new id. A one-off is paid
  once exactly when no earlier attempt's payout had landed (`PayrollPayouts.OneOffPaidOnceIff`), and payouts
  and records agree exactly when no record failed after its payout (`PayrollPayouts.PayoutsEqualEventsIff`).
- The offsets are said to separate the jobs that sign with the platform key (apps/worker/src/index.ts:69-73). They
  separate three of them; the payroll job signs too and starts together with the first
  (`WorkerSchedule.PayrollStartsWithRebalance`).
- The yield cycle is said to keep its position in a band (apps/api/src/services/agentService.ts:57-61). A position
  read that fails counts as 0; the band is kept exactly when that never happens at or above the ceiling
  (`YieldBand.BandKeptIff`).
- The customer handlers keep two maps; a PUT that moves an id to another account leaves a stale entry behind.
  `Customers.PutKeepsInverseIff` says exactly when that happens.

## Model

| member | source | states |
|---|---|---|
| CanonicalForm.CanonicalIffEquivalent | packages/shared/src/lcp/canonical.ts:6-29 | two printable values have the same canonical text exactly when they are the same document at every depth: key order, undefined members and the sign of zero are all that is lost |
| CanonicalForm.CanonicalReadBack | packages/shared/src/lcp/canonical.ts:10-29 | a JSON reader reads the text back to the sorted normal form and leaves nothing over |
| CanonicalForm.NormalIffEquivalent | packages/shared/src/lcp/canonical.ts:22-27 | sorting the keys and dropping undefined members gives equal results exactly for values that are equivalent member by member |
| CanonicalForm.SortedKeysUnique | packages/shared/src/lcp/canonical.ts:23-25 | a strictly sorted member list is determined by which keys it has and what they hold |
| CanonicalForm.PrintableIff | packages/shared/src/lcp/canonical.ts:13-28 | printing throws exactly on non-finite numbers and on undefined values outside object members |
| CanonicalForm.SameText | packages/sdk/src/lcp.ts:11-30 | values with one normal form print alike or fail alike |
| CanonicalForm.CanonicalWellFormed | packages/shared/src/lcp/canonical.ts:16-18 | no canonical text holds a lone surrogate, whatever strings went in |
| CanonicalForm.HashInputIffEquivalent | packages/sdk/src/lcp.ts:33-35 | the bytes that are hashed determine the document, too: UTF-8 encoding merges no two canonical texts |
| JsonReader.ReadBack | packages/shared/src/lcp/canonical.ts:10-29 | a printed value followed by anything that may follow a value is read back to its normal form with the rest untouched |
| JsonReader.NumberReadBack | packages/shared/src/lcp/canonical.ts:12-15 | every finite number, in each of the four layouts, is read back from its text although the texts are not prefix-free |
| JsonReader.StringReadBack | packages/shared/src/lcp/canonical.ts:16-18 | every string, escapes and lone surrogates included, is read back from its quoted form |
| CanonicalJson.Defined | packages/shared/src/lcp/canonical.ts:24-24 | the filter keeps exactly the members that are not undefined |
| CanonicalJson.SortMembers | packages/shared/src/lcp/canonical.ts:25-25 | the sort permutes the members; the order is that of CanonicalOrder.CanonicalKeysAscend |
| CanonicalOrder.CanonicalKeysAscend | packages/shared/src/lcp/canonical.ts:22-27 | at every depth, the keys that a JSON reader reads from a canonical text ascend: where two of them part, the later goes on, with the greater UTF-16 unit if both do |
| Texts.LessIsBefore | packages/shared/src/lcp/canonical.ts:25-25 | the comparison of the sort is that order by index |
| CanonicalOrder.ShortEscapes | packages/shared/src/lcp/canonical.ts:17-17 | the seven units that have a short escape, and which |
| CanonicalOrder.EscapeOf | packages/shared/src/lcp/canonical.ts:17-17 | every other control character and lone surrogate gets four lower-case hex digits, and nothing else is escaped |
| CanonicalOrder.NotationOf | packages/shared/src/lcp/canonical.ts:14-14 | a number has an exponent exactly outside 10^-7 .. 10^21, then one digit before the point, and no superfluous zero |
| CanonicalOrder.Marks | packages/shared/src/lcp/canonical.ts:11-26 | the brackets, separators, quotes and literals are those of JSON |
| Texts.EncodeInjective | packages/shared/src/lcp/index.ts:22-22 | two different texts get the same UTF-8 input only if one holds a lone surrogate |
| Texts.EncodedUnits | packages/shared/src/lcp/index.ts:22-22 | unit by unit: a pair becomes its code point, a lone surrogate U+FFFD, anything else itself |
| Schema.ParseIdempotent | packages/shared/src/lcp/types.ts:84-123 | a parsed document parses to itself, defaults and stripped keys included |
| Schema.ParseRespects | packages/shared/src/lcp/index.ts:26-28 | parsing documents that are equal up to key order fails for both or gives equivalent results |
| Schema.ParsePrintable | packages/shared/src/lcp/index.ts:19-22 | whatever the schema accepts can be canonicalized |
| Schema.StoredTextStable | packages/shared/src/lcp/index.ts:19-28 | a document that went through the schema and then through storage in any key order is accepted again and prints to the same text |
| Schema.LookupParsed | packages/shared/src/lcp/types.ts:84-123 | a parsed object holds under each key of the schema exactly what that field parsed to |
| Schema.FieldBecomes | packages/shared/src/lcp/types.ts:84-123 | a value given is parsed; one left out fails the parse if required, stays out if optional, and is the parsed default otherwise |
| Schema.FieldsKeys | packages/shared/src/lcp/types.ts:84-123 | a parsed object holds no other keys than those of the schema |
| LegalDocument.VersionNumberInjective | packages/shared/src/lcp/index.ts:105-118 | different versions are different JSON numbers |
| LegalContext.LiteralValid | packages/shared/src/lcp/index.ts:107-192 | the literal handed to the schema repeats no key at any depth |
| LegalHistory.BuiltSound | packages/shared/src/lcp/index.ts:105-193 | a built document carries the id and version it was built with and exactly the two consents, both required, and parses to itself |
| LegalHistory.PublishedSound | apps/api/src/services/legalContextService.ts:75-97 | a published row stores the hash that the platform recomputes from the stored document and that the SDK computes from the served one |
| LegalHistory.ReorderedSound | apps/api/src/services/legalContextService.ts:28-38 | that stays true when storage reorders the keys of the stored document |
| LegalBinding.HistorySound | apps/api/src/services/legalContextService.ts:57-97 | at every state of a publish history the row satisfies all this and its version counts the successful publishes |
| LegalBinding.HistoryGrows | apps/api/src/services/legalContextService.ts:57-59 | along a history the context id and the row id stay fixed, the version never falls, and it stays only if nothing was published |
| LegalBinding.BindLegalContextIff | packages/shared/src/lcp/index.ts:35-55 | with the required consents included, binding fails exactly on an id the context does not contain |
| LegalBinding.BindForActionIff | apps/api/src/services/legalContextService.ts:108-127 | an action binds exactly when a context is published and every requested id is in it; the binding holds every required and requested consent once, the stored hash, and verifies |
| LegalBinding.BindingVerifiesIff | packages/shared/src/lcp/index.ts:61-67 | a binding made at one state of a history verifies at a later one exactly when the version is the same |
| LegalBinding.SdkAcceptsBoundHash | packages/sdk/src/lcp.ts:37-43 | the SDK accepts the bound hash for the document served at that version, and for a later one exactly if the stored hashes agree up to case |
| LegalBinding.TamperEvidence | packages/shared/src/lcp/index.ts:57-67 | two documents verify against one binding only if SHA-256 agrees on their canonical texts, which differ unless the documents are the same |
| LegalBinding.PrepareRunNeverBinds | apps/api/src/services/payrollService.ts:327-330 | no publish history makes the self-custody payroll binding succeed |
| LegalPublishing.PublishesIff | apps/api/src/services/legalContextService.ts:57-97 | a publish goes through exactly when the terms have a text, the request itself has the listed formats and lengths (the hash of the text is 64 hex digits, the dispute page made from the tenant's domain is a URL), and the database takes the row |
| LegalRequest.PublishedSaysRequest | apps/api/src/services/legalContextService.ts:59-97 | every written row, as stored and as read and served, says what the request said, each thing under its key: atrHash is 0x and the hash of the text of the terms, api the base URL without one slash, and so on for terms, provider, contact, dispute resolution, jurisdictions, channels, consents and dates |
| LegalRequest.ParseKeeps | packages/shared/src/lcp/types.ts:84-123 | parsing keeps every scalar that stands along the schema's keys |
| LegalRequest.VersionPrints | packages/shared/src/lcp/index.ts:128-128 | a version prints as its decimal numeral |
| LegalService.Service.Publish | apps/api/src/services/legalContextService.ts:44-101 | writes the next version for one tenant, saying what the request said, exactly under the listed conditions on the request, or throws and writes nothing; keeps every stored row sound |
| LegalService.Service.GetForTenant | apps/api/src/services/legalContextService.ts:28-32 | what is served hashes, for the SDK, to the hash served with it |
| LegalService.Service.Bind | apps/api/src/services/legalContextService.ts:108-127 | binds exactly when the tenant has published and every id is one of the two, with the stored hash |
| TreasuryContract.LedgerIsItsEventLog | contracts/treasury/src/lib.rs:87-152 | after any calls whatever, every balance is deposits minus withdrawals of the event log, lies within i128 and is non-negative |
| TreasuryContract.RecordFlowEffect | contracts/treasury/src/lib.rs:87-142 | when a flow is taken, in terms of the balance; then one balance changes by the amount and one event is left, else nothing changes |
| TreasuryContract.AdminIsFirst | contracts/treasury/src/lib.rs:75-81 | the admin is whoever the first initialization named |
| TreasuryContract.Contract.RecordFlow | contracts/treasury/src/lib.rs:87-142 | the storage and event updates are the step the lemmas are about, every error branch included |
| TreasuryContract.Contract.Initialize | contracts/treasury/src/lib.rs:75-81 | only the first initialization takes effect |
| Treasury.DeltaTotal | apps/api/src/services/treasuryService.ts:321-345 | one upsert moves the total of every selection of buckets that contains its bucket by the delta and no other total |
| Treasury.DeltaEffect | apps/api/src/services/treasuryService.ts:321-345 | one upsert keeps the index and non-negative rows and changes one bucket's amount by the delta |
| TreasuryLedger.NeitherDeltaThrows | apps/api/src/services/treasuryService.ts:240-277 | once the guard passed, neither upsert can meet a negative balance |
| TreasuryLedger.RebalanceConserves | apps/api/src/services/treasuryService.ts:230-299 | for every pair of buckets, equal ones included, a booked rebalance keeps the holdings of every tenant and asset, moves exactly its amount and leaves every other bucket alone |
| TreasuryLedger.AtMostTwoRows | apps/api/src/services/treasuryService.ts:276-277 | at most two rows change and none disappears |
| TreasuryLedger.FailedRebalance | apps/api/src/services/treasuryService.ts:240-277 | for the rows: a throw before bookkeeping leaves them unchanged; a throw in it has lost at most the debit, and only because the database refused |
| TreasuryLedger.LedgerAfterRebalance | apps/api/src/services/treasuryService.ts:240-277 | for the ledger, however the rebalance ends: it changes exactly when the move reaches the contract and is accepted, by its amount under its key |
| TreasuryLedger.GapAfterRebalance | apps/api/src/services/treasuryService.ts:264-277 | how far chain and rows drift apart under every key, however the rebalance ends |
| TreasuryLedger.GapsKeptIff | apps/api/src/services/treasuryService.ts:230-299 | for every request of a non-negative amount under a configured contract, chain and rows keep their distance under every key exactly when the move does not land, or its reply is heard, the debit is stored, one side is liquidity, and the credit is stored unless liquidity is credited |
| TreasuryLedger.RunKeepsRefined | apps/api/src/integrations/soroban.ts:65-97 | over every faithful run, each on-chain balance is the sum of the non-negative yield rows whose reference collapses to its symbol |
| TreasuryLedger.GuardCoversChain | apps/api/src/services/treasuryService.ts:301-319 | in such a state a withdrawal that passes the guard is covered on-chain |
| TreasuryLedger.NeverInsufficient | contracts/treasury/src/lib.rs:117-122 | so in no faithful run does the contract answer InsufficientBalance |
| TreasuryLedger.CompletesIff | apps/api/src/services/treasuryService.ts:230-299 | exactly what decides whether a covered move completes |
| TreasuryVenues.CollapseIff | apps/api/src/integrations/soroban.ts:85-88 | the name of a reference: "blend" for more than 32 characters with CCEB at some index, "defindex" for more than 32 without, itself for up to 32 |
| TreasuryVenues.BalanceAfterRebalance | apps/api/src/services/treasuryService.ts:240-273 | however a rebalance ends: exactly one balance, that of tenant, asset and name, changes by the amount exactly when the move gets to a contract that takes it |
| TreasuryVenues.EventAfterRebalance | apps/api/src/services/treasuryService.ts:264-273 | then and only then one event is left, with direction, key, amount and the hash of the binding, which a completed move answers with |
| TreasuryVenues.RefusalStops | apps/api/src/services/treasuryService.ts:231-262 | a venue that refuses a side of the move it is needed for stops it before chain and rows, as do the main network, a missing binding and an uncovered bucket |
| TreasuryVenues.BookedMoves | apps/api/src/services/treasuryService.ts:276-277 | a booked rebalance takes the amount from the bucket of its from side and adds it to that of its to side, a liquidity bucket having no reference |
| TreasuryVenues.VenueBalances | apps/api/src/integrations/soroban.ts:84-89 | over every faithful run, the balance of "blend", "defindex" or any other name is the sum of the yield rows whose reference goes by it |
| TreasuryDuplicates.UniqueFind | supabase/migrations/0001_init.sql:87-88 | with the index, whatever a read may find is the one row the other lemmas speak of |
| TreasuryDuplicates.DebitThrowsIff | apps/api/src/services/treasuryService.ts:302-345 | without the index, after the guard the debit throws exactly when it finds another row than the guard did and that one does not cover the amount |
| TreasuryDuplicates.DuplicatesConserve | apps/api/src/services/treasuryService.ts:276-277 | with duplicate rows, whichever of them each read finds: holdings kept, no negative row, at most two rows changed |
| TreasuryDuplicates.DuplicatesTotal | apps/api/src/services/treasuryService.ts:276-277 | with duplicate rows, every selection of buckets loses what it gives and gains what it receives |
| TreasuryService.Service.Rebalance | apps/api/src/services/treasuryService.ts:230-299 | the reads, upserts and chain calls of the method, in order, are the step the lemmas are about |
| TreasuryService.Service.AssertCanDebit | apps/api/src/services/treasuryService.ts:301-319 | passes exactly when the bucket covers the amount, in whatever order rows are listed |
| TreasuryService.Service.ApplyPositionDelta | apps/api/src/services/treasuryService.ts:321-345 | upserts one row, or throws and leaves the table |
| TreasuryService.Service.FindMatch | apps/api/src/services/treasuryService.ts:310-312 | the search finds the bucket's row whatever the listing order |
| TreasuryService.Service.RecordTreasuryFlow | apps/api/src/integrations/soroban.ts:65-97 | simulates when not configured; otherwise one event and one balance change under the direction and the name of the reference, or nothing, and the caller hears of it unless the reply is lost |
| TreasuryService.Service.Totals | apps/api/src/services/treasuryService.ts:88-107 | the accumulators equal the bucket totals of the tenant's rows, and liquid plus yield is the total |
| TreasuryService.TruncatedRemainder | apps/api/src/services/treasuryService.ts:96-96 | the division of the share leaves a remainder smaller than the divisor, with the sign of the dividend |
| TreasuryService.YieldShareInRange | apps/api/src/services/treasuryService.ts:95-96 | the share of yield reported for non-negative rows lies in [0, 10000] |
| Cadence.MakeDayOfDate | apps/api/src/services/payrollService.ts:28-45 | reading a day's calendar date and making the day of it again is the identity, for all days before and after 1970 |
| Cadence.DateOfMakeDay | apps/api/src/services/payrollService.ts:28-45 | every valid calendar date is read back from the day it makes |
| Cadence.Epoch | apps/api/src/services/payrollService.ts:28-45 | day 0 is January 1, 1970 |
| Cadence.NextDate | apps/api/src/services/payrollService.ts:28-45 | the date of every day is the successor of the date of the day before |
| Cadence.MonthLengths | apps/api/src/services/payrollService.ts:28-45 | the months have the Gregorian lengths |
| Cadence.AdvanceAdds | apps/api/src/services/payrollService.ts:28-45 | a step adds 7 days, 14 days, or exactly the days of the starting month |
| Cadence.AdvanceForward | apps/api/src/services/payrollService.ts:28-45 | a recurring step moves forward by 7 to 31 days and keeps the time of day |
| Cadence.StepsAdd | apps/api/src/services/payrollService.ts:28-45 | k weekly or biweekly steps in a row add exactly 7k or 14k days; what failures in between change is the subject of PayrollRhythm |
| Cadence.MonthlyLands | apps/api/src/services/payrollService.ts:37-39 | the calendar date a monthly step lands on, overflow into the next month included |
| Cadence.MonthlyKeepsDayIff | apps/api/src/services/payrollService.ts:37-39 | it keeps the day of the month exactly when the next month has that day |
| Cadence.MonthlyRhythm | apps/api/src/services/payrollService.ts:28-45 | from days 1 to 28, k monthly steps in a row are k calendar months |
| Cadence.AdvanceOrdered | apps/api/src/services/payrollService.ts:28-45 | of two instants the later one steps further, if the earlier is on a day that every month has |
| Cadence.MonthEndsMeet | apps/api/src/services/payrollService.ts:37-39 | past day 28 it need not: outside leap years January 31 and February 3 step to the same instant |
| Cadence.UtcDate.SetUTCDate | apps/api/src/services/payrollService.ts:32-35 | changes the date in place as section 21.4.4 of ECMA-262 says |
| Cadence.UtcDate.SetUTCMonth | apps/api/src/services/payrollService.ts:38-38 | changes the month in place, days carrying over |
| Cadence.AdvanceCadence | apps/api/src/services/payrollService.ts:28-45 | the switch over a mutable date computes the step the lemmas are about |
| PayrollSchedules.DueForward | apps/worker/src/jobs/scheduledPayroll.ts:19-23 | a tick tries due schedules in order, each at most once, moves rows only forward and leaves untried rows alone |
| PayrollSchedules.TickForward | apps/worker/src/jobs/scheduledPayroll.ts:16-30 | the same for a whole tick |
| PayrollSchedules.TriedIff | apps/worker/src/jobs/scheduledPayroll.ts:19-23 | in one tick, the k-th listed schedule is tried exactly when it is due and everything listed before it returns |
| PayrollRuns.MissedTickShrinks | apps/worker/src/jobs/scheduledPayroll.ts:16-30 | a tick that misses a due schedule adds nothing ahead of it, and pushes one of those ahead past it unless the tick ended in a throw that was no on-chain failure |
| PayrollRuns.WaitingIsBounded | apps/worker/src/jobs/scheduledPayroll.ts:16-30 | with no proviso on how executions end: the ticks a due schedule has waited are at most the schedules no longer ahead of it plus the ticks that ended in such a throw |
| PayrollRuns.NoStarvation | apps/worker/src/jobs/scheduledPayroll.ts:16-30 | a due schedule with k others due no later is tried within any k + h + 1 ticks of which h end so; within k + 1 if executions fail only on-chain |
| PayrollRuns.StarvesIff | apps/worker/src/jobs/scheduledPayroll.ts:16-30 | a due schedule is never tried exactly when at every tick something listed before it does not return |
| PayrollRuns.RefusalStarves | apps/api/src/services/payrollService.ts:188-197 | a schedule that throws before the chain in every tick keeps its row, and nothing due later is ever tried |
| PayrollRuns.FailuresSpaced | apps/api/src/services/payrollService.ts:233-244 | backed-off failures of one schedule, those after which its row was stored, are at least an hour apart, and its next run is an hour after the last or later |
| PayrollRuns.FailuresInWindow | apps/api/src/services/payrollService.ts:26-26 | so a window of length w holds at most w / 1h + 1 backed-off failures |
| PayrollRuns.OneOffSettlesOnce | apps/api/src/services/payrollService.ts:258-259 | a one-off that was moved on, audited or not, is never tried again |
| PayrollSchedules.SavedRow | apps/api/src/services/payrollService.ts:233-265 | the row stored after the chain call, backed off, ended or moved on, is the one the lemmas are about |
| PayrollRhythm.RowReplaysLog | apps/api/src/services/payrollService.ts:233-265 | at every point of every run a schedule's row is its first row with its own log entries applied in order; nothing else touches it |
| PayrollRhythm.OnTimeWithoutFailures | apps/api/src/services/payrollService.ts:255-265 | over every run, a recurring schedule without backed-off failures runs next exactly one step on per success, whenever the executions took place |
| PayrollRhythm.RhythmKeptIff | apps/api/src/services/payrollService.ts:233-265 | over every run, a weekly or biweekly schedule, or a monthly one on day 1 to 28, is never due earlier than that, and exactly then if and only if it has no backed-off failure |
| PayrollRhythm.DaysKeptIff | apps/api/src/services/payrollService.ts:233-265 | the same in days: 7 or 14 per success, exactly when no failure was backed off |
| PayrollRhythm.OneFailureDrifts | apps/api/src/services/payrollService.ts:235-238 | for every weekly or biweekly schedule: one failure at once and a retry an hour later leave it an hour late, at another time of day |
| PayrollRhythm.LateButMeets | apps/api/src/services/payrollService.ts:37-39 | a monthly schedule on January 31 that fails until February 3 and then settles is due when it would have been anyway |
| PayrollBackoff.BacksOffIff | apps/api/src/services/payrollService.ts:233-244 | an execution that fails on-chain pushes the schedule an hour past the failure exactly when both database writes are taken; otherwise no row changes |
| PayrollBackoff.BackedOff | apps/api/src/services/payrollService.ts:16-26 | over every run, a schedule whose failure was backed off is in no later tick tried again before the hour is over |
| PayrollBackoff.AllStoredIff | apps/api/src/services/payrollService.ts:233-244 | over every history, all on-chain failures of a schedule are backed off exactly when no database write was refused after one |
| PayrollBackoff.ChainFailuresSpaced | apps/api/src/services/payrollService.ts:16-26 | under that condition all its on-chain failures are at least an hour apart |
| PayrollBackoff.RefusedWriteRetries | apps/api/src/services/payrollService.ts:233-238 | without it they need not be: for every distance between two ticks there is a run with one on-chain failure in each |
| PayrollWorker.RunScheduledPayroll | apps/worker/src/jobs/scheduledPayroll.ts:9-31 | a tenant gets exactly one tick of its own if the API is reachable for it and every active employee of its active schedules has a well-formed salary, and none otherwise; no other rows change |
| PayrollWorker.AnswersIff | apps/api/src/services/payrollService.ts:126-153 | a tenant's forecast answers exactly when those salaries are well-formed |
| PayrollWorker.RunTenant | apps/worker/src/jobs/scheduledPayroll.ts:18-23 | the loop that stops at the first throw performs the tick the lemmas are about |
| PayrollWorker.Api.ExecuteRun | apps/api/src/services/payrollService.ts:224-280 | what every ending of an execution, a failed audit write included, does to the schedule row |
| PayrollSettlement.Gateway.ExecutePayrollRun | apps/api/src/integrations/soroban.ts:99-146 | the payout and then the record, each of which may fail or land unheard of, are the step the lemmas are about |
| PayrollSettlement.Service.ExecuteRun | apps/api/src/services/payrollService.ts:179-286 | chain, run row, schedule row and audit in that order, up to the first throw, leave what the step functions say |
| PayrollPayees.PaymentSays | apps/api/src/services/payrollService.ts:219-222 | a payout that lands adds one payment, under the run's id, to exactly the Stellar destinations of the run's lines, in line order; any other execution adds none |
| PayrollPayees.PayeesAt | apps/api/src/services/payrollService.ts:219-222 | the positions of the payees among the lines ascend and are exactly those with a Stellar destination |
| PayrollPayees.LinesAt | apps/api/src/services/payrollService.ts:156-172 | the lines are those of the active employees named, in order, with the employee's id, salary and rail, the schedule's asset, and the wallet, else the bank reference, as destination |
| PayrollPayees.PaidAsOftenAsNamed | apps/api/src/services/payrollService.ts:156-222 | every Stellar address is paid exactly as often as the schedule names an active employee whose pay goes there |
| PayrollPayees.EmployeePaid | apps/api/src/services/payrollService.ts:156-222 | an active employee with a Stellar wallet of their own is paid exactly as often as the schedule names them |
| PayrollPayees.EventSays | apps/api/src/integrations/soroban.ts:125-142 | a record that lands leaves one event: tenant, run id, total, asset, number of lines, hash, and the provenance of the service account |
| PayrollPayees.ReturnsIff | apps/api/src/services/payrollService.ts:199-286 | an execution returns exactly when nothing refuses it and it is a dry run, or its record is heard of and all three writes are taken |
| PayrollPayouts.ExecutedEffects | apps/api/src/integrations/soroban.ts:99-146 | one execution adds its payout and its record to the chain, each exactly under a condition on its inputs, and nothing else |
| PayrollPayouts.SettledIff | apps/api/src/services/payrollService.ts:233-265 | a schedule is moved on exactly when the record landed and was heard of (or no contract is configured) and both rows were stored |
| PayrollPayouts.HistoryOnChain | apps/api/src/integrations/soroban.ts:108-145 | what a whole history with fresh run ids leaves on the chain |
| PayrollPayouts.PaymentsOnRecordIff | apps/api/src/integrations/soroban.ts:108-145 | every payment made has its run on record exactly when no record was refused or failed after its payout |
| PayrollPayouts.PayoutsEqualEventsIff | apps/api/src/integrations/soroban.ts:108-145 | there are never fewer payouts than events of paying runs, and as many exactly under that condition |
| PayrollPayouts.OneOffPaidOnceIff | apps/api/src/services/payrollService.ts:199-265 | over every worker run, a one-off that settled with a payout was paid once more for every earlier attempt whose payout landed, so once exactly if there was none |
| PayrollPayouts.RetryPaysAgain | apps/api/src/integrations/soroban.ts:108-145 | for every run with payees: if the record fails after the payout and the retry succeeds, two payments and one event |
| PayrollPayouts.RunRecordableIff | contracts/payroll/src/lib.rs:117-142 | the run built from a schedule is accepted exactly when the service is entitled and the run pays somebody a positive total |
| PayrollPayouts.NobodyToPay | apps/api/src/services/payrollService.ts:191-192 | a schedule that names no active employee builds a run that is not acceptable |
| PayrollPayouts.RefusedNeverSettles | apps/api/src/services/payrollService.ts:233-244 | a schedule whose runs the contract refuses is never moved on and stays active through every worker run |
| PayrollWorker.Api.Obligations | apps/api/src/services/payrollService.ts:126-153 | throws exactly when such a salary is malformed; otherwise every active schedule once, sorted by next run |
| PayrollForecast.RequiredIsLines | apps/api/src/services/payrollService.ts:134-142 | the forecast's total and headcount are the fold over the run lines and their number, and both throw together |
| PayrollForecast.ForecastAgreesWithRuns | apps/api/src/services/payrollService.ts:126-153 | the forecast is a sorted, stable permutation and lists exactly what the runs of the active schedules will take |
| PayrollForecast.ForecastSucceedsIff | apps/api/src/services/payrollService.ts:126-153 | it succeeds exactly when every active schedule's run can be built |
| PayrollForecast.RunBuiltIff | apps/api/src/services/payrollService.ts:191-192 | a run can be built exactly when no active employee it names has a malformed salary |
| PayrollForecast.RunTotalReadsBack | apps/api/src/services/payrollService.ts:204-204 | the printed total reads back to the integer the contract is given |
| PayrollForecast.ForecastIsListing | apps/api/src/services/payrollService.ts:134-152 | the forecast is the listing that the worker's ticks assume |
| PayrollForecast.UpcomingObligations | apps/api/src/services/payrollService.ts:126-153 | the nested loops compute the forecast, or throw where it throws |
| PayrollForecast.BuildRunLines | apps/api/src/services/payrollService.ts:156-172 | the loop builds one line per active employee named, in order |
| PayrollContract.NoRunTwice | contracts/payroll/src/lib.rs:138-143 | over every sequence of calls no run id appears in two events, and the executed ids are exactly those with an event |
| PayrollContract.EveryEventCaused | contracts/payroll/src/lib.rs:115-163 | every event was left by one signed call with a positive total and headcount, whose caller was the admin or allowlisted at that step and labelled accordingly |
| PayrollContract.ExecuteSucceedsIff | contracts/payroll/src/lib.rs:105-166 | when a run is accepted, in terms of the events so far, and that a refusal changes nothing |
| PayrollContract.RefusalSays | contracts/payroll/src/lib.rs:115-143 | which answer a run gets: the first refusal that applies, in order |
| PayrollContract.OperatorIff | contracts/payroll/src/lib.rs:74-95 | the operators are exactly those the admin added and has not removed since |
| PayrollContract.AdminIsFirst | contracts/payroll/src/lib.rs:65-71 | the admin is whoever the first initialization named |
| PayrollContract.Contract.DoExecuteRun | contracts/payroll/src/lib.rs:105-166 | storage and events change as the step says, every error branch included |
| PayrollContract.Contract.DoAddOperator | contracts/payroll/src/lib.rs:74-86 | the same for the allowlist |
| PayrollContract.Contract.DoRemoveOperator | contracts/payroll/src/lib.rs:88-95 | the same for removals |
| Money.ParseIff | packages/shared/src/money.ts:11-13 | the accepted strings are exactly the printed numerals |
| Money.ToBaseUnitsTruncates | packages/shared/src/money.ts:9-20 | conversion succeeds exactly on numerals and gives the exact value times 10^d, truncated toward zero |
| Money.SpaceAround | packages/shared/src/money.ts:10-10 | white space around an amount changes neither what it converts to nor whether it does |
| Money.SpaceInside | packages/shared/src/money.ts:11-13 | white space inside one makes it throw |
| Money.RoundTrip | packages/shared/src/money.ts:9-29 | toBaseUnits(fromBaseUnits(b, d), d) = b for every integer b and every d |
| Money.PrintedIsShortest | packages/shared/src/money.ts:22-29 | no accepted string for the same amount is shorter than the printed one |
| DecimalArithmetic.RoundedError | apps/anchor-business/src/rate.ts:31-31 | one operation at precision 40 errs by at most half a unit of the 40th significant digit |
| DecimalArithmetic.RoundAtError | apps/anchor-business/src/rate.ts:135-142 | rounding to k decimals errs by at most half a unit of the k-th |
| DecimalArithmetic.TieAwayFromZero | apps/anchor-business/src/rate.ts:135-142 | a tie is rounded away from zero, on both sides |
| DecimalArithmetic.RoundAtFixed | apps/anchor-business/src/rate.ts:135-136 | a number that already has at most k decimals is left alone |
| DecimalArithmetic.RoundsToZeroIff | apps/anchor-business/src/rate.ts:135-136 | what rounds to 0 is exactly what lies within half a unit of it |
| Rate.PriceReproduces | apps/anchor-business/src/rate.ts:138-142 | for every pair of amounts, price * buy + fee misses sell by at most 1.5 * 10^-39 of sell and 0.5 * 10^-30 of buy |
| Rate.RatePassesPlatformCheck | apps/anchor-business/src/rate.ts:127-142 | in both the sell-given and the buy-given case, an answer with 1.5 sold + 5 * 10^8 bought up to 10^32 misses by at most 10^-7 and the platform accepts it |
| Rate.RequestPassesIff | apps/anchor-business/src/rate.ts:100-147 | for every request of up to 10^19 given to sell or 10^23 to buy, at a table rate or an oracle price between 0.001 and 1000, the answer is accepted exactly when the buy amount does not round to nothing |
| Rate.LargeAmountsFail | apps/anchor-business/src/rate.ts:138-142 | an answered request for 1.46 * 10^24 whose price misses by 2 * 10^-7 and is rejected |
| Rate.AnsweredIff | apps/anchor-business/src/rate.ts:108-134 | exactly which requests get a rate |
| Rate.PriceFiniteIff | apps/anchor-business/src/rate.ts:136-142 | the rate carries a price exactly when the raw buy amount does not round to nothing |
| Rate.AmountsFollowRawPrice | apps/anchor-business/src/rate.ts:130-134 | whichever amount is given, the other one is the raw price's, up to 40-digit rounding |
| Rate.GivenIsEchoed | apps/anchor-business/src/rate.ts:133-136 | a given amount within its asset's decimals is returned unchanged |
| Rate.RawPrice | apps/anchor-business/src/rate.ts:86-96 | a raw price is never 0 |
| Rate.PairPrices | apps/anchor-business/src/rate.ts:48-96 | the raw price of every listed pair: the table's rate (the oracle's for USD) one way, its inverse to 40 digits the other, the two multiplying to 1 up to half a unit of the 40th |
| Rate.OtherPairs | apps/anchor-business/src/rate.ts:76-96 | an asset costs 1 of itself, and no other pair has a price |
| Rate.ListedDecimals | apps/anchor-business/src/rate.ts:36-42 | the decimals of the five assets |
| Rate.WhichError | apps/anchor-business/src/rate.ts:108-131 | which error an unanswered request gets: the first that applies, in order |
| RateHandler.OnRecordIff | apps/anchor-business/src/rate.ts:149-178 | a quote is on record exactly when it is the last firm answer given under its id; indicative answers leave no trace |
| RateHandler.FirmAnswersKept | apps/anchor-business/src/rate.ts:149-162 | as long as no id is drawn twice, every firm answer stays on record word for word |
| RateHandler.RecordedPrice | apps/anchor-business/src/rate.ts:152-162 | every recorded quote carries two amounts and the price derived from them |
| RateHandler.QuoteSays | apps/anchor-business/src/rate.ts:151-162 | a quote on record says the assets of its request, the rate answered to it, and an expiry 24 hours later |
| RateHandler.Handler.Handle | apps/anchor-business/src/rate.ts:100-174 | answers as specified and stores a firm quote, only a firm quote, under its id |
| Scheduler.NeverOverlaps | apps/worker/src/scheduler.ts:27-56 | in every state of every run, at most one run of each name is in flight, and stop would leave no timer armed |
| Scheduler.NothingStartsAfterStop | apps/worker/src/scheduler.ts:29-65 | after stop nothing is started again, whatever fires or is added |
| Scheduler.TickDroppedIff | apps/worker/src/scheduler.ts:29-29 | a tick is dropped exactly because a run of that name is in flight or the scheduler has stopped |
| SchedulerStarts.FireStarts | apps/worker/src/scheduler.ts:28-53 | in every reachable state, a timer that fires starts its task exactly when the scheduler is not stopped and no run of that name is in flight, arms the next tick one interval on, and leaves the other timers |
| SchedulerStarts.AddStarts | apps/worker/src/scheduler.ts:43-55 | an added task starts at once exactly if it has no delay, under the same condition, and gets one timer, for its delay or its interval |
| SchedulerStarts.SettleAndStop | apps/worker/src/scheduler.ts:36-65 | a settled run starts nothing and frees its name; a stop starts nothing, clears every timer and marks the scheduler |
| SchedulerStarts.SettledStartsAgain | apps/worker/src/scheduler.ts:36-53 | after a run has settled, the next tick of its task starts it again |
| SchedulerStarts.StopIsFinal | apps/worker/src/scheduler.ts:58-65 | whatever comes after a stop, the log of starts stays as it was |
| SchedulerStarts.TaskKeepsTicking | apps/worker/src/scheduler.ts:43-55 | on every punctual run not stopped, a task added at t0 with delay d and interval I ticks at t0 + d + k * I for every k up to now: a run of it begins then, unless an earlier one is still in flight |
| SchedulerStarts.StartLogged | apps/worker/src/scheduler.ts:29-31 | and what begins at such a tick stays in the log |
| Scheduler.Scheduler.DoAdd | apps/worker/src/scheduler.ts:27-56 | arms the delay, or starts at once and arms the interval |
| Scheduler.Scheduler.DoFire | apps/worker/src/scheduler.ts:43-48 | what a delay or an interval timer does when it fires |
| Scheduler.Scheduler.DoSettle | apps/worker/src/scheduler.ts:36-39 | a settled run frees its name |
| Scheduler.Scheduler.DoStop | apps/worker/src/scheduler.ts:58-65 | the loop clears every listed timer |
| WorkerSchedule.Worker.Start | apps/worker/src/index.ts:51-87 | registers the tasks with their intervals and offsets |
| WorkerSchedule.WorkerKeepsTicking | apps/worker/src/index.ts:51-87 | on every such run of the worker: the rebalance and the payroll every interval from the start, the market data every half interval but at least every minute, the two yield jobs every interval from a third and two thirds of it |
| WorkerSchedule.StartedIsRun | apps/worker/src/index.ts:51-87 | the started worker is the run that adds exactly these tasks |
| WorkerSchedule.OffsetsApart | apps/worker/src/index.ts:74-87 | the three offsets are at least floor(I/3) apart both ways around the interval, for every I |
| WorkerSchedule.StartsApart | apps/worker/src/index.ts:69-87 | on ideal timers, starts of different signing tasks stay at least floor(I/3) apart forever |
| WorkerSchedule.OneSignerAtATime | apps/worker/src/index.ts:69-87 | if no run lasts a third of the interval, at most one of the three is ever in flight |
| WorkerSchedule.PayrollStartsWithRebalance | apps/worker/src/index.ts:51-61 | the payroll run starts at the instant of the rebalance and is in flight beside it |
| Customers.PutKeepsInverseIff | apps/anchor-business/src/customer.ts:62-83 | a PUT keeps the two maps inverse exactly when its id and account key belong together already or are both unused |
| Customers.RunKeepsInverseIff | apps/anchor-business/src/customer.ts:24-98 | through a whole history the maps are inverse exactly as long as every PUT meets that condition |
| Customers.DeleteKeepsInverse | apps/anchor-business/src/customer.ts:85-98 | a DELETE never breaks the inverse |
| Customers.LookupsAgree | apps/anchor-business/src/customer.ts:44-58 | while the maps are inverse, looking a customer up by id and by account gives the same answer |
| Customers.DeleteUndoesPut | apps/anchor-business/src/customer.ts:62-98 | deleting a newly PUT customer restores both maps |
| Customers.AccountKeyInjective | apps/anchor-business/src/customer.ts:33-35 | without colons in account and memo, keys are equal exactly when the parameters are, a missing one counting as empty |
| Customers.CollidesIff | apps/anchor-business/src/customer.ts:33-35 | a customer shares its key with a different one that has no colons exactly when it has a colon in account or memo itself |
| Customers.PutSays | apps/anchor-business/src/customer.ts:62-83 | a PUT writes one record with the request's identity and fields, under the id it gives, else the one on record for its account, else a new one, and points the account's key at it; nothing else changes |
| Customers.GetAndDeleteSay | apps/anchor-business/src/customer.ts:37-98 | a GET answers with the record the request is about, or asks for the fields; a DELETE removes that record and the key it was put with, and nothing else |
| Customers.Store.DoPut | apps/anchor-business/src/customer.ts:62-83 | writes both maps under the resolved id |
| Customers.Store.DoDelete | apps/anchor-business/src/customer.ts:85-98 | removes the record and the key it was stored with |
| Customers.Store.DoGet | apps/anchor-business/src/customer.ts:37-60 | answers from the resolved id, the empty id counting as none |
| SmartAccount.Construct | contracts/smart-treasury/src/lib.rs:82-120 | rule i belongs to the i-th target of capped targets followed by gateways, and carries the policy exactly if i is below the capped count |
| SmartAccount.RuleNames | contracts/smart-treasury/src/lib.rs:126-134 | the first four rules are named by their index, all others alike |
| SmartAccount.Flattening.Walk | packages/shared/src/stellar/client.ts:213-229 | pushes one id per contract call of the tree, in preorder, and throws exactly when some called contract is unmapped |
| SmartAccount.SubtreeIsStretch | packages/shared/src/stellar/client.ts:213-229 | the ids of every subtree are one uninterrupted stretch of the list, starting with the subtree's own root |
| SmartAccount.LowIdsAreCappedIff | contracts/smart-treasury/src/lib.rs:42-65 | ids below the capped count mean capped targets, under every map that follows the numbering, exactly when no target is listed on both sides |
| SmartAccount.CappedNodesMarked | packages/shared/src/stellar/client.ts:213-229 | then the low ids of a flattened tree mark exactly the nodes that call capped targets |
| YieldBand.ReachesBandIff | apps/api/src/services/agentService.ts:71-84 | from any position the band [ceiling - step, ceiling + step) is reached after exactly the number of cycles computed from the distance, and never left |
| YieldBand.RunReachesBandIff | apps/api/src/services/agentService.ts:139-156 | with failing cycles in between, a run ends in the band exactly when enough of its cycles succeeded |
| YieldBand.AlternatesInBand | apps/api/src/services/agentService.ts:71-84 | inside the band the position alternates between two values |
| YieldBand.LeavesBandIff | apps/api/src/services/agentService.ts:74-77 | a cycle leaves the band exactly when its position read failed at or above the ceiling |
| YieldBand.BandKeptIff | apps/api/src/services/agentService.ts:65-126 | over every run from inside the band, the position stays in it throughout exactly when no acting cycle's read failed at or above the ceiling |
| YieldBand.DriftBounded | apps/api/src/services/agentService.ts:74-84 | from inside the band, each failed read costs at most one step above it and none below |
| YieldBand.BlindRunsClimb | apps/api/src/services/agentService.ts:74-84 | while every read fails, every cycle deposits and the position grows without a ceiling |
| YieldBand.RecordIsCompleteIff | apps/api/src/services/agentService.ts:82-123 | the recorded decisions account for every move, and then for the position, exactly when no insert failed after the venue had moved |
| YieldBand.Agent.RunCycle | apps/api/src/services/agentService.ts:65-126 | moves the position, then records the decision, then audits, up to the first throw |

## Left out

- PayrollRuns.NoStarvation: assumes that nobody edits schedules between ticks and that the tenant's forecast succeeds; a malformed salary makes the whole forecast throw (see PayrollWorker.AnswersIff), and then no schedule is tried.
- PayrollPayouts.OneOffPaidOnceIff: one tenant's executions on one contract; other callers of the contract, and edits between ticks, are not part of the history.
- PayrollWorker.RunScheduledPayroll: tenant ids are distinct; for which tenants the API cannot be reached is a parameter, and rosters do not change within one call.
- TreasuryService.Service.Totals: covers the database branch; the on-chain snapshot and its USD pricing use floating point.
- TreasuryLedger.RunKeepsRefined: a faithful run loses no effect between chain and database and uses one liquid side; what any other rebalance does to rows, ledger and the gap between them is the subject of FailedRebalance, LedgerAfterRebalance and GapsKeptIff.
- TreasuryLedger.GapsKeptIff: for a configured contract; without one, flows are simulated and no chain is kept.
- WorkerSchedule.OneSignerAtATime: timers are ideal; a late timer or an interval beyond 2^31 - 1 ms is not modelled.
- Rate.RatePassesPlatformCheck: query amounts spelled `Infinity` or `NaN`, exponents beyond decimal.js's range and asset names inherited from `Object.prototype` are not modelled; an undefined price does not say which of Infinity, -Infinity and NaN it is.
- Cadence.AdvanceCadence: dates beyond 8.64e15 ms, where `toISOString` throws, are not excluded; `localeCompare` on ISO strings is the order of the instants they denote.
- Json.Equivalent: sparse arrays and values with a `toJSON` method are not modelled; an optional member that zod keeps as explicitly undefined counts as missing, which prints alike.
- Schema.ParseIdempotent: URL, e-mail and UUID formats and case mapping are parameters; refinements are those of the legal-context schema.
- TreasuryService.Service.Rebalance: what DeFindex and Blend do is a success flag; APY and time-of-update columns are dropped; the mainnet refusal is a flag.
- SmartAccount.Construct: rule ids are positions in the order of addition; OpenZeppelin's own checks and the spending-limit policy are not part of this model.
- PayrollPayees.PaymentSays: who is paid and how often, not how much: the amounts are floating point (see below).
- SchedulerStarts.TaskKeepsTicking: timers are ideal, as for OneSignerAtATime.
- Money.ToBaseUnitsTruncates: covers string amounts; a JavaScript number goes through `toString` first.
- `applyBps`, `simulatedHash`, `planRebalance`, the amounts of a payout (salaries scaled to a hundredth) and the USD conversions: floating point, one-line, or not visible.
- Soroban storage lifetimes, fees, event indexing, transaction submission and polling, signing and XDR construction.
- HTTP routes, authentication, the RBAC matrix, environment parsing, database queries beyond rows in a map, the contents of audit and agent-decision records.
- The web application and the language-model rationale.
