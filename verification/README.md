# Claims reconciliation engine — Dafny model

This project models the core of a healthcare claims reconciliation engine. It covers two parts.

**Reconciliation and analysis.** Invoices are grouped by `claim_id` and their `transaction_value`s are summed. Claims are left-joined to those totals; a claim with no invoices gets a total of 0. Each claim is then labelled `BALANCED` (total equals benefit), `OVERPAID` (total above benefit) or `UNDERPAID` (total below benefit). The analyzer counts the rows of each status and computes their percentages, the overpaid excess and the underpaid shortfall. It also builds a combined "overpaid and underpaid" bucket. An empty input gets its own, smaller summary shape. There is one filter predicate per status.

**Row-level validation of the two input tables.** Each loader first checks that the required columns are present. Its validator then runs a fixed sequence of checks, and the first one that fails is reported with the number of offending rows:

- claims: nulls per column, non-positive `patient_id`, negative `charges_amount`, negative `benefit_amount`, `benefit_amount > charges_amount`, duplicate `claim_id`s;
- invoices: nulls per column, invalid `type_of_bill`, negative `transaction_value`, duplicate `invoice_id`s.

Modules follow the source layout:

- `Wrappers` (Option / Outcome / Result)
- `Seqs` (row counts, distinctness, duplicate ids)
- `Constants` (bill types, statuses)
- `Schemas` (columns, raw and typed rows)
- `Loader` (validators and `load`)
- `Reconciliation` (aggregator, classifier, analyzer, filters)
- `Scenarios` (worked examples)

Money is modelled exactly as Dafny `real`, so the equality test that decides `BALANCED` is exact. A loaded row is a `RawClaim` / `RawInvoice` whose cells are `Option`s, and a null cell is `None`. The loader turns a passing table into typed `Claim` / `Invoice` rows. The null checks walk a Python set of column names, and that set's iteration order is not fixed. So the validators take the iteration order as a parameter `order`, which must list every column exactly once. The reconciled rows come out in claim order.

Two details of the code to keep in mind:

- The invoices validator checks `type_of_bill` before `transaction_value` (src/data/loader.py:108-120), and the model keeps that order.
- The zero-claims summary holds the integer `0` for each percentage (src/processing/reconciliation.py:42-48). The model writes `0.0`.

## Model

| member | source | states |
|---|---|---|
| Constants.ParseBillType | src/constants/constants.py:6 | a bill-type cell is accepted exactly when it is "fee" or "procedure payment", and the accepted value carries that label |
| Constants.BillTypeRoundTrip | src/constants/constants.py:6 | every bill type is read back from its own label, and that label is a valid bill type |
| Seqs.CountZeroIff | src/data/loader.py:47-48 | a filter keeps zero rows exactly when no row satisfies its predicate, so "height > 0" means "some row breaks the rule" |
| Seqs.DuplicatedEmptyIff | src/data/loader.py:73-77 | the number of ids occurring on more than one row is zero exactly when the ids are pairwise distinct |
| Loader.CheckClaimNullsFrom | src/data/loader.py:40-45 | the null checks pass iff every listed column has no null; a failure names the first listed column that has nulls, with its null count |
| Loader.ClaimNullsPassIffComplete | src/data/loader.py:40-45 | with every column listed, the null checks pass exactly on tables without a null cell |
| Loader.CheckClaims | src/data/loader.py:39-77 | every failure is a claims error; a failure of one kind implies that all earlier checks passed; its count equals the number of rows breaking that rule (positive), or the number of repeated claim ids |
| Loader.CheckClaimsPassIff | src/data/loader.py:39-77 | the claims checks pass iff every row is complete with patient_id > 0, charges ≥ 0, 0 ≤ benefit ≤ charges, and the claim ids are pairwise distinct |
| Loader.LoadClaims | src/data/loader.py:79-91 | rejects with a missing-columns error iff the required columns are not a subset of the present ones, reporting exactly required − present; otherwise it reports the validator's error; it succeeds iff the columns are present and every rule holds; a success has one typed claim per row, copied field for field, and satisfies the loader's guarantees |
| Loader.CheckInvoiceNullsFrom | src/data/loader.py:101-106 | the invoice null checks pass iff every listed column has no null; a failure names the first listed column with nulls and its count |
| Loader.InvoiceNullsPassIffComplete | src/data/loader.py:101-106 | with every column listed, the invoice null checks pass exactly on tables without a null cell |
| Loader.CheckInvoices | src/data/loader.py:100-128 | every failure is an invoices error; a failure of one kind implies the earlier checks passed; its count is the number of offending rows, or the number of repeated invoice ids |
| Loader.CheckInvoicesPassIff | src/data/loader.py:100-128 | the invoice checks pass iff every row is complete, its type_of_bill is valid and its transaction_value ≥ 0, and the invoice ids are pairwise distinct; the claim id is never checked against the claims |
| Loader.LoadInvoices | src/data/loader.py:130-143 | rejects with exactly required − present iff a required column is absent; otherwise it reports the validator's error; it succeeds iff every rule holds; a success has one typed invoice per row with non-negative values and distinct ids |
| Reconciliation.UninvoicedSumIsZero | src/processing/reconciliation.py:9-15 | a claim id that no invoice carries has an invoice sum of 0 |
| Reconciliation.InvoiceTotals | src/processing/reconciliation.py:9-11 | the grouped table has an entry for a claim id iff some invoice carries it, and that entry is the sum of transaction_value over all invoices with that claim id |
| Reconciliation.Classify | src/processing/reconciliation.py:16-23 | BALANCED iff total = benefit, OVERPAID iff total > benefit, UNDERPAID iff total < benefit |
| Reconciliation.JoinTotals | src/processing/reconciliation.py:13-15 | one output row per claim, in order, carrying the claim's grouped total or 0 when it has none |
| Reconciliation.ReconcileClaims | src/processing/reconciliation.py:6-36 | exactly one row per input claim; each row copies claim_id, patient_id, charges and benefit from its claim, its total is the sum of that claim's invoices (0 if none), and its status agrees with the three-way rule |
| Reconciliation.UninvoicedClaimDefault | src/processing/reconciliation.py:14-21 | a claim with no invoices gets total 0; it is BALANCED when its benefit is 0 and UNDERPAID when its benefit is positive |
| Reconciliation.ValidatedUninvoicedClaim | src/processing/reconciliation.py:14-21 | on validated claims, a claim with no invoices is BALANCED if its benefit is 0 and UNDERPAID otherwise, and never OVERPAID |
| Reconciliation.OneRowPerClaim | src/processing/reconciliation.py:13-14 | with distinct claim ids, each claim's id names exactly one output row, the row at its own position |
| Reconciliation.OrphanInvoiceChangesNothing | src/processing/reconciliation.py:9-14 | adding an invoice whose claim_id matches no claim leaves the reconciled table unchanged: no row is added and no total moves |
| Reconciliation.ReconciledTotalsConserveInvoices | src/processing/reconciliation.py:9-14 | with distinct claim ids, the reconciled totals add up to the invoice amount posted to known claims, which is the whole invoice amount less the orphan invoices' amount |
| Reconciliation.Select | src/processing/reconciliation.py:50-58 | a status filter keeps only rows of that status and keeps each row of that status as many times as it occurs in the input (the multiset of the result is the input's multiset restricted to that status), so it keeps no more rows than it was given |
| Reconciliation.StatusCountsPartition | src/processing/reconciliation.py:50-58 | the balanced, overpaid and underpaid counts add up to the row count |
| Reconciliation.Percentage | src/processing/reconciliation.py:92 | the pre-rounding percentage p satisfies p · total = count · 100 and lies in [0, 100] when count ≤ total |
| Reconciliation.PercentagesAdd | src/processing/reconciliation.py:90-103 | before display rounding, the three status percentages add up to 100 |
| Reconciliation.PercentageOfSum | src/processing/reconciliation.py:104-108 | before display rounding, the combined bucket's percentage is the sum of the overpaid and underpaid percentages |
| Reconciliation.AnalyzeReconciliationResults | src/processing/reconciliation.py:39-111 | the empty input gives the zero-claims shape: all counts and percentages 0, no amounts, no combined bucket; otherwise the counts are the per-status row counts and add up to total_claims; before display rounding, every percentage is count·100/total_claims in [0,100] and the three add up to 100; the combined bucket's count, percentage and amount are the sums of the overpaid and underpaid ones; an amount is 0 when its count is 0; on consistently labelled rows the overpaid amount is the sum over all rows of each row's excess (total − benefit when positive, else 0) and the underpaid amount the sum of each row's shortfall (benefit − total when positive, else 0) |
| Reconciliation.ExcessOfOverpaidIsPositive | src/processing/reconciliation.py:60-72 | the summed excess of rows paid above their benefit is ≥ 0, and positive when there is such a row |
| Reconciliation.ShortfallOfUnderpaidIsPositive | src/processing/reconciliation.py:74-86 | the summed shortfall of rows paid below their benefit is ≥ 0, and positive when there is such a row |
| Reconciliation.NetOfExcessAndShortfall | src/processing/reconciliation.py:60-86 | on consistently labelled rows, overpaid excess − underpaid shortfall = Σ total − Σ benefit |
| Reconciliation.OverpaidAmountIsRowExcess | src/processing/reconciliation.py:60-72 | on consistently labelled rows, the sum of total − benefit over the OVERPAID rows equals the sum over all rows of each row's excess (total − benefit when total > benefit, else 0) |
| Reconciliation.UnderpaidAmountIsRowShortfall | src/processing/reconciliation.py:74-86 | on consistently labelled rows, the sum of benefit − total over the UNDERPAID rows equals the sum over all rows of each row's shortfall (benefit − total when total < benefit, else 0) |
| Reconciliation.AnalysisAmounts | src/processing/reconciliation.py:60-110 | on consistently labelled rows, the overpaid amount is the row-by-row excess, the underpaid amount the row-by-row shortfall, and the combined amount their sum; all are ≥ 0; each of the first two is positive iff its status occurs; their difference is the net payment error |
| Reconciliation.ReconciledSummary | src/reconciliation_engine.py:29-33 | an end-to-end composition lemma (reconcile, then analyze): for any non-empty claims table and any invoices, total_claims is the number of claims, the overpaid amount is the row-by-row excess and the underpaid amount the row-by-row shortfall of the reconciled rows, and both are non-negative |
| Reconciliation.GetReconciliationFilters | src/processing/reconciliation.py:114-122 | each filter holds on a row iff the row's status is that filter's status |
| Reconciliation.FiltersPartitionRows | src/processing/reconciliation.py:114-122 | every row satisfies exactly one of the three filters |
| Reconciliation.FilteredCountsMatchSummary | src/processing/reconciliation.py:114-122 | selecting rows with each filter keeps as many rows as the per-status count that the summary reports for that status |
| Scenarios.PartialPaymentsBalance | src/processing/reconciliation.py:6-111 | charges 100, benefit 80, invoices 50 and 30: total 80, BALANCED; the summary is 1 balanced at 100% and zero overpaid/underpaid amounts |
| Scenarios.PaymentAboveBenefit | src/processing/reconciliation.py:6-111 | benefit 150 and one invoice of 200: OVERPAID, with overpaid count 1, 100% and amount 50 |
| Scenarios.UnpaidClaim | src/processing/reconciliation.py:6-111 | benefit 50 and no invoices: total 0, UNDERPAID, with underpaid amount 50 |
| Scenarios.NoClaimsSummary | src/processing/reconciliation.py:42-48 | the empty input gives the zero-claims shape |
| Scenarios.ThriceRepeatedIdIsOneDuplicate | src/data/loader.py:73-77 | an id on three rows counts as one duplicate id |
| Scenarios.MissingDateColumn | src/data/loader.py:82-87 | a claims table without date_of_service is rejected, naming exactly that column |
| Scenarios.NegativeChargesReportedFirst | src/data/loader.py:53-71 | a row with negative charges and a benefit above its charges is reported only for the negative charges |

## Left out

- CSV reading, polars schema overrides and the file-exists checks in the loader constructors (src/data/loader.py:34-37, 80, 95-98, 131): these are I/O. `LoadClaims` / `LoadInvoices` start from the table already read, that is, its column names and its rows.
- The text of the error messages, including the file name in the missing-columns message. The model keeps the error kind, the column and the count.
- Reconciliation.AnalyzeReconciliationResults: percentages are the exact values count·100/total_claims. Python's `round(x, 2)` on binary floats is display rounding and is not modelled.
- Reconciliation.PercentagesAdd: holds only for the exact percentages. The program returns `round(x, 2)`, and for a 1/1/1 split the three rounded percentages are 33.33 each, which add up to 99.99.
- Reconciliation.PercentageOfSum: holds only for the exact percentages. For a 1/1/1 split the program's combined bucket is round(2/3·100, 2) = 66.67, while the rounded overpaid and underpaid percentages add up to 33.33 + 33.33 = 66.66.
- Extra input columns: `load` only checks that the required columns are present (src/data/loader.py:83) and returns the whole table (:91), but the typed `Claim` / `Invoice` rows keep only the schema columns. A claims file with its own `total_transaction_value` column is therefore accepted; polars then renames the joined column `total_transaction_value_right`, and `fill_null` and the status rule (src/processing/reconciliation.py:13-21) read the claims file's column instead of the invoice totals. This name collision is not modelled.
- Floating-point behaviour (binary rounding of sums, NaN, infinities): money is exact `real`, so the model does not show how float equality can miss a balance that exact arithmetic finds.
- The order of polars join output rows: the model emits rows in claim order.
- `reconcile_claims` on tables that still hold nulls: the model's reconciliation takes typed claims and invoices, which is what a passing loader produces.
- Report rendering, the pie chart and currency formatting (src/reporting/report_generator.py); synthetic data generation and payment strategies (src/data/generator.py, src/strategies/, src/generate_input_data.py); orchestration, printing and path helpers (src/reconciliation_engine.py, src/main.py, src/utils.py). These are presentation, randomness and I/O.
- Idempotence: every operation is a pure function, so re-running one on the same inputs gives the same result by construction. No lemma states it.
