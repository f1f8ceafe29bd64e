/** The reconciliation and analysis engine (src/processing/reconciliation.py).

    Aggregator: invoice transaction values summed per claim id.
    Classifier: claims left-joined to those totals (a missing total reads as 0)
    and each row labelled BALANCED, OVERPAID or UNDERPAID.
    Analyzer: counts, percentages and amounts per status, plus the combined
    overpaid-and-underpaid bucket, with a separate shape for an empty input.
    Filters: one predicate per status over a reconciled row.

    Amounts are exact reals, so the equality test that decides BALANCED is
    exact; percentages are the exact values before display rounding. */
module Reconciliation {
  import opened Seqs
  import opened Constants
  import opened Schemas
  import opened Loader

  /** A row of the reconciled table, in its six output columns. */
  datatype ReconciledClaim = ReconciledClaim(
    claimId: string,
    patientId: int,
    chargesAmount: real,
    benefitAmount: real,
    totalTransactionValue: real,
    reconciliationStatus: Status)

  // ===================== aggregator =====================

  /** The sum of `transaction_value` over the invoices posted to `claimId`. */
  function SumFor(invoices: seq<Invoice>, claimId: string): real {
    if |invoices| == 0 then 0.0
    else
      (if invoices[0].claimId == claimId then invoices[0].transactionValue else 0.0)
      + SumFor(invoices[1..], claimId)
  }

  /** Some invoice is posted to `claimId`. */
  predicate Invoiced(invoices: seq<Invoice>, claimId: string) {
    exists i :: 0 <= i < |invoices| && invoices[i].claimId == claimId
  }

  lemma InvoicedUnfold(invoices: seq<Invoice>, claimId: string)
    requires |invoices| > 0
    ensures Invoiced(invoices, claimId)
            <==> invoices[0].claimId == claimId || Invoiced(invoices[1..], claimId)
  {
    if Invoiced(invoices, claimId) && invoices[0].claimId != claimId {
      var i :| 0 <= i < |invoices| && invoices[i].claimId == claimId;
      assert invoices[1..][i - 1] == invoices[i];
    }
    if Invoiced(invoices[1..], claimId) {
      var i :| 0 <= i < |invoices[1..]| && invoices[1..][i].claimId == claimId;
      assert invoices[i + 1] == invoices[1..][i];
    }
  }

  /** A claim nobody invoiced has a zero sum. */
  lemma {:induction false} UninvoicedSumIsZero(invoices: seq<Invoice>, claimId: string)
    requires !Invoiced(invoices, claimId)
    ensures SumFor(invoices, claimId) == 0.0
  {
    if |invoices| > 0 {
      InvoicedUnfold(invoices, claimId);
      UninvoicedSumIsZero(invoices[1..], claimId);
    }
  }

  /** The value a left join gives a claim: its total, or 0.0 when the
      grouped table has no row for it. */
  function TotalOrZero(totals: map<string, real>, claimId: string): real {
    if claimId in totals then totals[claimId] else 0.0
  }

  /** The grouped table `invoices.group_by("claim_id").agg(sum)`: one entry
      per invoiced claim id, holding that claim's sum. */
  function InvoiceTotals(invoices: seq<Invoice>): (totals: map<string, real>)
    ensures forall id :: id in totals <==> Invoiced(invoices, id)
    ensures forall id :: id in totals ==> totals[id] == SumFor(invoices, id)
  {
    if |invoices| == 0 then map[]
    else
      var rest := InvoiceTotals(invoices[1..]);
      var id := invoices[0].claimId;
      InvoicedUnfold(invoices, id);
      assert id !in rest ==> SumFor(invoices[1..], id) == 0.0 by {
        if id !in rest { UninvoicedSumIsZero(invoices[1..], id); }
      }
      assert forall other :: Invoiced(invoices, other)
                             <==> other == id || Invoiced(invoices[1..], other) by {
        forall other ensures Invoiced(invoices, other)
                             <==> other == id || Invoiced(invoices[1..], other) {
          InvoicedUnfold(invoices, other);
        }
      }
      rest[id := TotalOrZero(rest, id) + invoices[0].transactionValue]
  }

  // ===================== classifier =====================

  /** The status rule: equality first, then greater, otherwise less. */
  function Classify(total: real, benefit: real): (s: Status)
    ensures s == Balanced <==> total == benefit
    ensures s == Overpaid <==> total > benefit
    ensures s == Underpaid <==> total < benefit
  {
    if total == benefit then Balanced
    else if total > benefit then Overpaid
    else Underpaid
  }

  /** A row's status agrees with its two amounts. */
  predicate Consistent(row: ReconciledClaim) {
    && (row.reconciliationStatus == Balanced <==> row.totalTransactionValue == row.benefitAmount)
    && (row.reconciliationStatus == Overpaid <==> row.totalTransactionValue > row.benefitAmount)
    && (row.reconciliationStatus == Underpaid <==> row.totalTransactionValue < row.benefitAmount)
  }

  /** The output row for claim `c` whose joined total is `total`. */
  function ReconciledRow(c: Claim, total: real): ReconciledClaim {
    ReconciledClaim(c.claimId, c.patientId, c.chargesAmount, c.benefitAmount,
                    total, Classify(total, c.benefitAmount))
  }

  /** The left join of the claims onto the grouped totals, row by row. */
  function JoinTotals(claims: seq<Claim>, totals: map<string, real>): (rows: seq<ReconciledClaim>)
    ensures |rows| == |claims|
    ensures forall i :: 0 <= i < |claims| ==>
              rows[i] == ReconciledRow(claims[i], TotalOrZero(totals, claims[i].claimId))
  {
    if |claims| == 0 then []
    else
      [ReconciledRow(claims[0], TotalOrZero(totals, claims[0].claimId))]
      + JoinTotals(claims[1..], totals)
  }

  /** `row` is the reconciliation of claim `c` against `invoices`: the claim's
      four columns copied, its invoice sum, and a status that agrees with them. */
  predicate Reconciles(row: ReconciledClaim, c: Claim, invoices: seq<Invoice>) {
    && row.claimId == c.claimId
    && row.patientId == c.patientId
    && row.chargesAmount == c.chargesAmount
    && row.benefitAmount == c.benefitAmount
    && row.totalTransactionValue == SumFor(invoices, c.claimId)
    && Consistent(row)
  }

  /** `reconcile_claims`: exactly one output row per claim, in claim order. */
  function ReconcileClaims(claims: seq<Claim>, invoices: seq<Invoice>): (rows: seq<ReconciledClaim>)
    ensures |rows| == |claims|
    ensures forall i :: 0 <= i < |claims| ==> Reconciles(rows[i], claims[i], invoices)
  {
    var totals := InvoiceTotals(invoices);
    var rows := JoinTotals(claims, totals);
    assert forall i :: 0 <= i < |claims| ==>
             rows[i].totalTransactionValue == SumFor(invoices, claims[i].claimId) by {
      forall i | 0 <= i < |claims|
        ensures rows[i].totalTransactionValue == SumFor(invoices, claims[i].claimId)
      {
        if claims[i].claimId !in totals {
          UninvoicedSumIsZero(invoices, claims[i].claimId);
        }
      }
    }
    rows
  }

  /** Two rows that reconcile the same claim against the same invoices are equal. */
  lemma ReconcilesDeterminesRow(a: ReconciledClaim, b: ReconciledClaim, c: Claim,
                                invoices: seq<Invoice>, other: seq<Invoice>)
    requires Reconciles(a, c, invoices) && Reconciles(b, c, other)
    requires SumFor(invoices, c.claimId) == SumFor(other, c.claimId)
    ensures a == b
  {
  }

  /** A claim no invoice is posted to reconciles to a zero total; it is
      BALANCED when its benefit is zero and UNDERPAID when it is positive. */
  lemma UninvoicedClaimDefault(claims: seq<Claim>, invoices: seq<Invoice>, i: int)
    requires 0 <= i < |claims| && !Invoiced(invoices, claims[i].claimId)
    ensures ReconcileClaims(claims, invoices)[i].totalTransactionValue == 0.0
    ensures claims[i].benefitAmount == 0.0 ==>
              ReconcileClaims(claims, invoices)[i].reconciliationStatus == Balanced
    ensures claims[i].benefitAmount > 0.0 ==>
              ReconcileClaims(claims, invoices)[i].reconciliationStatus == Underpaid
  {
    UninvoicedSumIsZero(invoices, claims[i].claimId);
  }

  /** On validated claims an uninvoiced claim is never OVERPAID. */
  lemma ValidatedUninvoicedClaim(claims: seq<Claim>, invoices: seq<Invoice>, i: int)
    requires ValidClaims(claims)
    requires 0 <= i < |claims| && !Invoiced(invoices, claims[i].claimId)
    ensures ReconcileClaims(claims, invoices)[i].reconciliationStatus
            == (if claims[i].benefitAmount == 0.0 then Balanced else Underpaid)
  {
    UninvoicedClaimDefault(claims, invoices, i);
  }

  /** With pairwise-distinct claim ids, each claim id names exactly one row,
      the row of that claim. */
  lemma OneRowPerClaim(claims: seq<Claim>, invoices: seq<Invoice>)
    requires Distinct(ClaimIds(claims))
    ensures forall i, j :: 0 <= i < |claims| && 0 <= j < |claims| ==>
              (ReconcileClaims(claims, invoices)[j].claimId == claims[i].claimId <==> i == j)
  {
    var rows := ReconcileClaims(claims, invoices);
    forall i, j | 0 <= i < |claims| && 0 <= j < |claims|
      ensures rows[j].claimId == claims[i].claimId <==> i == j
    {
      if i != j {
        assert ClaimIds(claims)[i] != ClaimIds(claims)[j];
      }
    }
  }

  lemma {:induction false} SumForAppend(invoices: seq<Invoice>, inv: Invoice, claimId: string)
    ensures SumFor(invoices + [inv], claimId)
            == SumFor(invoices, claimId) + (if inv.claimId == claimId then inv.transactionValue else 0.0)
  {
    if |invoices| > 0 {
      assert (invoices + [inv])[1..] == invoices[1..] + [inv];
      SumForAppend(invoices[1..], inv, claimId);
    } else {
      assert (invoices + [inv])[1..] == [];
    }
  }

  /** An invoice posted to a claim id that no claim has changes nothing:
      it adds no row and no claim's total. */
  lemma OrphanInvoiceChangesNothing(claims: seq<Claim>, invoices: seq<Invoice>, orphan: Invoice)
    requires forall i :: 0 <= i < |claims| ==> claims[i].claimId != orphan.claimId
    ensures ReconcileClaims(claims, invoices + [orphan]) == ReconcileClaims(claims, invoices)
  {
    var with := ReconcileClaims(claims, invoices + [orphan]);
    var without := ReconcileClaims(claims, invoices);
    forall i | 0 <= i < |claims| ensures with[i] == without[i] {
      SumForAppend(invoices, orphan, claims[i].claimId);
      ReconcilesDeterminesRow(with[i], without[i], claims[i], invoices + [orphan], invoices);
    }
  }

  /** Invoice sums restricted to the claim ids in `ids`, and to those outside it. */
  function SumMatching(invoices: seq<Invoice>, ids: set<string>): real {
    if |invoices| == 0 then 0.0
    else
      (if invoices[0].claimId in ids then invoices[0].transactionValue else 0.0)
      + SumMatching(invoices[1..], ids)
  }

  function SumOrphans(invoices: seq<Invoice>, ids: set<string>): real {
    if |invoices| == 0 then 0.0
    else
      (if invoices[0].claimId !in ids then invoices[0].transactionValue else 0.0)
      + SumOrphans(invoices[1..], ids)
  }

  function SumInvoices(invoices: seq<Invoice>): real {
    if |invoices| == 0 then 0.0 else invoices[0].transactionValue + SumInvoices(invoices[1..])
  }

  function TotalReconciled(rows: seq<ReconciledClaim>): real {
    if |rows| == 0 then 0.0 else rows[0].totalTransactionValue + TotalReconciled(rows[1..])
  }

  function ClaimIdSet(claims: seq<Claim>): set<string> {
    set i | 0 <= i < |claims| :: claims[i].claimId
  }

  lemma {:induction false} SumMatchingAddId(invoices: seq<Invoice>, id: string, ids: set<string>)
    requires id !in ids
    ensures SumMatching(invoices, {id} + ids) == SumFor(invoices, id) + SumMatching(invoices, ids)
  {
    if |invoices| > 0 {
      SumMatchingAddId(invoices[1..], id, ids);
    }
  }

  lemma {:induction false} SumSplitsByIds(invoices: seq<Invoice>, ids: set<string>)
    ensures SumInvoices(invoices) == SumMatching(invoices, ids) + SumOrphans(invoices, ids)
  {
    if |invoices| > 0 {
      SumSplitsByIds(invoices[1..], ids);
    }
  }

  lemma ReconcileTail(claims: seq<Claim>, invoices: seq<Invoice>)
    requires |claims| > 0
    ensures ReconcileClaims(claims, invoices)[1..] == ReconcileClaims(claims[1..], invoices)
  {
    var rows := ReconcileClaims(claims, invoices);
    var tail := ReconcileClaims(claims[1..], invoices);
    forall i | 0 <= i < |tail| ensures rows[1..][i] == tail[i] {
      assert claims[1..][i] == claims[i + 1];
      ReconcilesDeterminesRow(rows[i + 1], tail[i], claims[i + 1], invoices, invoices);
    }
  }

  /** With distinct claim ids, the reconciled totals add up to the invoice
      amount posted to known claims: the whole invoice amount less the
      orphans, which are summed by the aggregator but surface in no row. */
  lemma {:induction false} ReconciledTotalsConserveInvoices(claims: seq<Claim>, invoices: seq<Invoice>)
    requires Distinct(ClaimIds(claims))
    ensures TotalReconciled(ReconcileClaims(claims, invoices)) == SumMatching(invoices, ClaimIdSet(claims))
    ensures TotalReconciled(ReconcileClaims(claims, invoices))
            == SumInvoices(invoices) - SumOrphans(invoices, ClaimIdSet(claims))
  {
    SumSplitsByIds(invoices, ClaimIdSet(claims));
    if |claims| == 0 {
      assert ClaimIdSet(claims) == {};
      SumMatchingEmpty(invoices);
    } else {
      var tail := claims[1..];
      assert Distinct(ClaimIds(tail)) by {
        forall i, j | 0 <= i < j < |tail| ensures tail[i].claimId != tail[j].claimId {
          assert ClaimIds(claims)[i + 1] != ClaimIds(claims)[j + 1];
        }
      }
      ReconciledTotalsConserveInvoices(tail, invoices);
      ReconcileTail(claims, invoices);
      assert ClaimIdSet(claims) == {claims[0].claimId} + ClaimIdSet(tail) by {
        forall id | id in ClaimIdSet(claims) ensures id in {claims[0].claimId} + ClaimIdSet(tail) {
          var i :| 0 <= i < |claims| && claims[i].claimId == id;
          if i > 0 { assert tail[i - 1] == claims[i]; }
        }
        forall id | id in ClaimIdSet(tail) ensures id in ClaimIdSet(claims) {
          var i :| 0 <= i < |tail| && tail[i].claimId == id;
          assert claims[i + 1] == tail[i];
        }
      }
      assert claims[0].claimId !in ClaimIdSet(tail) by {
        forall i | 0 <= i < |tail| ensures tail[i].claimId != claims[0].claimId {
          assert ClaimIds(claims)[0] != ClaimIds(claims)[i + 1];
        }
      }
      SumMatchingAddId(invoices, claims[0].claimId, ClaimIdSet(tail));
    }
  }

  lemma {:induction false} SumMatchingEmpty(invoices: seq<Invoice>)
    ensures SumMatching(invoices, {}) == 0.0
  {
    if |invoices| > 0 {
      SumMatchingEmpty(invoices[1..]);
    }
  }

  // ===================== analyzer =====================

  /** The rows whose status is `s`, in order: `filter(status == s)`. A row
      of status `s` is kept as often as it occurs, any other row never. */
  function Select(rows: seq<ReconciledClaim>, s: Status): (sel: seq<ReconciledClaim>)
    ensures |sel| <= |rows|
    ensures forall i :: 0 <= i < |sel| ==> sel[i].reconciliationStatus == s
    ensures forall i :: 0 <= i < |rows| && rows[i].reconciliationStatus == s ==> rows[i] in sel
    ensures forall r {:trigger multiset(sel)[r]} :: multiset(sel)[r] == if r.reconciliationStatus == s then multiset(rows)[r] else 0
  {
    if |rows| == 0 then []
    else
      assert rows == [rows[0]] + rows[1..];
      if rows[0].reconciliationStatus == s then [rows[0]] + Select(rows[1..], s)
      else Select(rows[1..], s)
  }

  function StatusCount(rows: seq<ReconciledClaim>, s: Status): nat {
    |Select(rows, s)|
  }

  /** The column sum of `total_transaction_value - benefit_amount`. */
  function Excess(rows: seq<ReconciledClaim>): real {
    if |rows| == 0 then 0.0
    else (rows[0].totalTransactionValue - rows[0].benefitAmount) + Excess(rows[1..])
  }

  /** The column sum of `benefit_amount - total_transaction_value`. */
  function Shortfall(rows: seq<ReconciledClaim>): real {
    if |rows| == 0 then 0.0
    else (rows[0].benefitAmount - rows[0].totalTransactionValue) + Shortfall(rows[1..])
  }

  /** Every row's status agrees with its amounts, as on every reconciled table. */
  predicate AllConsistent(rows: seq<ReconciledClaim>) {
    forall i :: 0 <= i < |rows| ==> Consistent(rows[i])
  }

  /** Row by row, the amount a row was paid above its benefit (0 if none). */
  function OverpaidExcess(rows: seq<ReconciledClaim>): real {
    if |rows| == 0 then 0.0
    else
      var r := rows[0];
      (if r.totalTransactionValue > r.benefitAmount then r.totalTransactionValue - r.benefitAmount else 0.0)
      + OverpaidExcess(rows[1..])
  }

  /** Row by row, the amount a row was paid below its benefit (0 if none). */
  function UnderpaidShortfall(rows: seq<ReconciledClaim>): real {
    if |rows| == 0 then 0.0
    else
      var r := rows[0];
      (if r.totalTransactionValue < r.benefitAmount then r.benefitAmount - r.totalTransactionValue else 0.0)
      + UnderpaidShortfall(rows[1..])
  }

  /** `count / total * 100` before display rounding. */
  function Percentage(count: nat, total: nat): (p: real)
    requires total > 0
    ensures p * (total as real) == (count as real) * 100.0
    ensures count <= total ==> 0.0 <= p <= 100.0
  {
    (count as real) * 100.0 / (total as real)
  }

  /** A status entry of the summary: `{count, percentage}` or
      `{count, percentage, amount}`. */
  datatype Bucket =
    | Counted(count: nat, percentage: real)
    | Valued(count: nat, percentage: real, amount: real)

  /** The summary dictionary; an empty input has its own shape, without
      amounts and without the combined bucket. */
  datatype Summary =
    | NoClaims(totalClaims: nat, balanced: Bucket, overpaid: Bucket, underpaid: Bucket)
    | Claims(totalClaims: nat, balanced: Bucket, overpaid: Bucket, underpaid: Bucket, issues: Bucket)

  /** The three status counts always add up to the row count. */
  lemma {:induction false} StatusCountsPartition(rows: seq<ReconciledClaim>)
    ensures StatusCount(rows, Balanced) + StatusCount(rows, Overpaid) + StatusCount(rows, Underpaid)
            == |rows|
  {
    if |rows| > 0 {
      StatusCountsPartition(rows[1..]);
    }
  }

  /** `analyze_reconciliation_results`. */
  function AnalyzeReconciliationResults(rows: seq<ReconciledClaim>): (s: Summary)
    ensures s.totalClaims == |rows|
    ensures s.NoClaims? <==> |rows| == 0
    ensures s.NoClaims? ==>
              s.balanced == Counted(0, 0.0) && s.overpaid == Counted(0, 0.0) && s.underpaid == Counted(0, 0.0)
    ensures s.Claims? ==>
              && s.balanced.Counted? && s.overpaid.Valued? && s.underpaid.Valued? && s.issues.Valued?
              && s.balanced.count == StatusCount(rows, Balanced)
              && s.overpaid.count == StatusCount(rows, Overpaid)
              && s.underpaid.count == StatusCount(rows, Underpaid)
              && s.balanced.count + s.overpaid.count + s.underpaid.count == s.totalClaims
              && s.issues.count == s.overpaid.count + s.underpaid.count
              && s.issues.amount == s.overpaid.amount + s.underpaid.amount
              && (s.overpaid.count == 0 ==> s.overpaid.amount == 0.0)
              && (s.underpaid.count == 0 ==> s.underpaid.amount == 0.0)
    ensures s.Claims? ==>
              && s.balanced.percentage == Percentage(s.balanced.count, s.totalClaims)
              && s.overpaid.percentage == Percentage(s.overpaid.count, s.totalClaims)
              && s.underpaid.percentage == Percentage(s.underpaid.count, s.totalClaims)
              && s.issues.percentage == Percentage(s.issues.count, s.totalClaims)
              && 0.0 <= s.balanced.percentage <= 100.0 && 0.0 <= s.overpaid.percentage <= 100.0
              && 0.0 <= s.underpaid.percentage <= 100.0 && 0.0 <= s.issues.percentage <= 100.0
              && s.balanced.percentage + s.overpaid.percentage + s.underpaid.percentage == 100.0
              && s.issues.percentage == s.overpaid.percentage + s.underpaid.percentage
    ensures s.Claims? && AllConsistent(rows) ==>
              && s.overpaid.amount == OverpaidExcess(rows)
              && s.underpaid.amount == UnderpaidShortfall(rows)
  {
    var total := |rows|;
    if total == 0 then
      NoClaims(0, Counted(0, 0.0), Counted(0, 0.0), Counted(0, 0.0))
    else
      var balanced := StatusCount(rows, Balanced);
      var overpaid := StatusCount(rows, Overpaid);
      var underpaid := StatusCount(rows, Underpaid);
      StatusCountsPartition(rows);
      var overpaidAmount := Excess(Select(rows, Overpaid));
      var underpaidAmount := Shortfall(Select(rows, Underpaid));
      var pb := Percentage(balanced, total);
      var po := Percentage(overpaid, total);
      var pu := Percentage(underpaid, total);
      var pi := Percentage(overpaid + underpaid, total);
      PercentagesAdd(balanced, overpaid, underpaid, total);
      PercentageOfSum(overpaid, underpaid, total);
      AmountsAreRowSums(rows);
      Claims(total,
             Counted(balanced, pb),
             Valued(overpaid, po, overpaidAmount),
             Valued(underpaid, pu, underpaidAmount),
             Valued(overpaid + underpaid, pi, overpaidAmount + underpaidAmount))
  }

  /** Percentages of a split of the total add up to 100. */
  lemma PercentagesAdd(a: nat, b: nat, c: nat, total: nat)
    requires total > 0 && a + b + c == total
    ensures Percentage(a, total) + Percentage(b, total) + Percentage(c, total) == 100.0
  {
    var t := total as real;
    var pa, pb, pc := Percentage(a, total), Percentage(b, total), Percentage(c, total);
    calc {
      (pa + pb + pc) * t;
      pa * t + pb * t + pc * t;
      (a as real) * 100.0 + (b as real) * 100.0 + (c as real) * 100.0;
      t * 100.0;
    }
    ScaleCancels(pa + pb + pc, 100.0, t);
  }

  /** The percentage of a sum of counts is the sum of their percentages. */
  lemma PercentageOfSum(b: nat, c: nat, total: nat)
    requires total > 0
    ensures Percentage(b + c, total) == Percentage(b, total) + Percentage(c, total)
  {
    var t := total as real;
    var pb, pc, pbc := Percentage(b, total), Percentage(c, total), Percentage(b + c, total);
    calc {
      (pb + pc) * t;
      pb * t + pc * t;
      (b as real) * 100.0 + (c as real) * 100.0;
      ((b + c) as real) * 100.0;
      pbc * t;
    }
    ScaleCancels(pb + pc, pbc, t);
  }

  lemma ScaleCancels(x: real, y: real, t: real)
    requires t > 0.0 && x * t == y * t
    ensures x == y
  {
    assert (x - y) * t == 0.0;
  }

  lemma {:induction false} ExcessOfOverpaidIsPositive(rows: seq<ReconciledClaim>)
    requires forall i :: 0 <= i < |rows| ==> rows[i].totalTransactionValue > rows[i].benefitAmount
    ensures |rows| > 0 ==> Excess(rows) > 0.0
    ensures Excess(rows) >= 0.0
  {
    if |rows| > 0 {
      ExcessOfOverpaidIsPositive(rows[1..]);
    }
  }

  lemma {:induction false} ShortfallOfUnderpaidIsPositive(rows: seq<ReconciledClaim>)
    requires forall i :: 0 <= i < |rows| ==> rows[i].totalTransactionValue < rows[i].benefitAmount
    ensures |rows| > 0 ==> Shortfall(rows) > 0.0
    ensures Shortfall(rows) >= 0.0
  {
    if |rows| > 0 {
      ShortfallOfUnderpaidIsPositive(rows[1..]);
    }
  }

  function TotalBenefit(rows: seq<ReconciledClaim>): real {
    if |rows| == 0 then 0.0 else rows[0].benefitAmount + TotalBenefit(rows[1..])
  }

  /** Over consistently labelled rows, the overpaid excess less the underpaid
      shortfall is the whole paid total less the whole benefit. */
  lemma {:induction false} NetOfExcessAndShortfall(rows: seq<ReconciledClaim>)
    requires AllConsistent(rows)
    ensures Excess(Select(rows, Overpaid)) - Shortfall(Select(rows, Underpaid))
            == TotalReconciled(rows) - TotalBenefit(rows)
  {
    if |rows| > 0 {
      NetOfExcessAndShortfall(rows[1..]);
      var r := rows[0];
      assert Consistent(r);
      if r.reconciliationStatus == Overpaid {
        assert Select(rows, Overpaid) == [r] + Select(rows[1..], Overpaid);
        assert ([r] + Select(rows[1..], Overpaid))[1..] == Select(rows[1..], Overpaid);
      } else if r.reconciliationStatus == Underpaid {
        assert Select(rows, Underpaid) == [r] + Select(rows[1..], Underpaid);
        assert ([r] + Select(rows[1..], Underpaid))[1..] == Select(rows[1..], Underpaid);
      }
    }
  }

  /** Over consistently labelled rows, summing `total - benefit` over the
      OVERPAID rows gives the row-by-row excess over all rows. */
  lemma {:induction false} OverpaidAmountIsRowExcess(rows: seq<ReconciledClaim>)
    requires AllConsistent(rows)
    ensures Excess(Select(rows, Overpaid)) == OverpaidExcess(rows)
  {
    if |rows| > 0 {
      OverpaidAmountIsRowExcess(rows[1..]);
      var r := rows[0];
      assert Consistent(r);
      if r.reconciliationStatus == Overpaid {
        assert ([r] + Select(rows[1..], Overpaid))[1..] == Select(rows[1..], Overpaid);
      }
    }
  }

  /** Over consistently labelled rows, summing `benefit - total` over the
      UNDERPAID rows gives the row-by-row shortfall over all rows. */
  lemma {:induction false} UnderpaidAmountIsRowShortfall(rows: seq<ReconciledClaim>)
    requires AllConsistent(rows)
    ensures Shortfall(Select(rows, Underpaid)) == UnderpaidShortfall(rows)
  {
    if |rows| > 0 {
      UnderpaidAmountIsRowShortfall(rows[1..]);
      var r := rows[0];
      assert Consistent(r);
      if r.reconciliationStatus == Underpaid {
        assert ([r] + Select(rows[1..], Underpaid))[1..] == Select(rows[1..], Underpaid);
      }
    }
  }

  /** Both amount facts at once, for the analyzer's own contract. */
  lemma AmountsAreRowSums(rows: seq<ReconciledClaim>)
    ensures AllConsistent(rows) ==>
              && Excess(Select(rows, Overpaid)) == OverpaidExcess(rows)
              && Shortfall(Select(rows, Underpaid)) == UnderpaidShortfall(rows)
  {
    if AllConsistent(rows) {
      OverpaidAmountIsRowExcess(rows);
      UnderpaidAmountIsRowShortfall(rows);
    }
  }

  /** On consistently labelled rows (every output of `ReconcileClaims`) the
      overpaid amount is the row-by-row excess and the underpaid amount the
      row-by-row shortfall; both are non-negative, positive exactly when
      their status occurs, and their difference is the net payment error. */
  lemma AnalysisAmounts(rows: seq<ReconciledClaim>)
    requires |rows| > 0
    requires AllConsistent(rows)
    ensures AnalyzeReconciliationResults(rows).overpaid.amount == OverpaidExcess(rows)
    ensures AnalyzeReconciliationResults(rows).underpaid.amount == UnderpaidShortfall(rows)
    ensures AnalyzeReconciliationResults(rows).issues.amount == OverpaidExcess(rows) + UnderpaidShortfall(rows)
    ensures AnalyzeReconciliationResults(rows).overpaid.amount >= 0.0
    ensures AnalyzeReconciliationResults(rows).underpaid.amount >= 0.0
    ensures AnalyzeReconciliationResults(rows).issues.amount >= 0.0
    ensures AnalyzeReconciliationResults(rows).overpaid.count > 0
            <==> AnalyzeReconciliationResults(rows).overpaid.amount > 0.0
    ensures AnalyzeReconciliationResults(rows).underpaid.count > 0
            <==> AnalyzeReconciliationResults(rows).underpaid.amount > 0.0
    ensures AnalyzeReconciliationResults(rows).overpaid.amount
            - AnalyzeReconciliationResults(rows).underpaid.amount
            == TotalReconciled(rows) - TotalBenefit(rows)
  {
    var over := Select(rows, Overpaid);
    var under := Select(rows, Underpaid);
    assert forall i :: 0 <= i < |over| ==> Consistent(over[i]) by {
      forall i | 0 <= i < |over| ensures Consistent(over[i]) {
        SelectedRowIsARow(rows, Overpaid, i);
      }
    }
    assert forall i :: 0 <= i < |under| ==> Consistent(under[i]) by {
      forall i | 0 <= i < |under| ensures Consistent(under[i]) {
        SelectedRowIsARow(rows, Underpaid, i);
      }
    }
    ExcessOfOverpaidIsPositive(over);
    ShortfallOfUnderpaidIsPositive(under);
    NetOfExcessAndShortfall(rows);
    OverpaidAmountIsRowExcess(rows);
    UnderpaidAmountIsRowShortfall(rows);
  }

  lemma SelectedRowIsARow(rows: seq<ReconciledClaim>, s: Status, i: int)
    requires 0 <= i < |Select(rows, s)|
    ensures Select(rows, s)[i] in rows
  {
    if |rows| > 0 && rows[0].reconciliationStatus == s {
      if i > 0 {
        SelectedRowIsARow(rows[1..], s, i - 1);
      }
    } else if |rows| > 0 {
      SelectedRowIsARow(rows[1..], s, i);
    }
  }

  /** The pipeline end to end on a non-empty claims table and any invoices:
      one summary row count per claim, and amounts that are the row-by-row
      excess and shortfall, never negative. */
  lemma ReconciledSummary(claims: seq<Claim>, invoices: seq<Invoice>)
    requires |claims| > 0
    ensures AnalyzeReconciliationResults(ReconcileClaims(claims, invoices)).totalClaims == |claims|
    ensures AnalyzeReconciliationResults(ReconcileClaims(claims, invoices)).overpaid.amount >= 0.0
    ensures AnalyzeReconciliationResults(ReconcileClaims(claims, invoices)).underpaid.amount >= 0.0
    ensures AnalyzeReconciliationResults(ReconcileClaims(claims, invoices)).overpaid.amount
            == OverpaidExcess(ReconcileClaims(claims, invoices))
    ensures AnalyzeReconciliationResults(ReconcileClaims(claims, invoices)).underpaid.amount
            == UnderpaidShortfall(ReconcileClaims(claims, invoices))
  {
    var rows := ReconcileClaims(claims, invoices);
    assert AllConsistent(rows) by {
      forall i | 0 <= i < |rows| ensures Consistent(rows[i]) {
        assert Reconciles(rows[i], claims[i], invoices);
      }
    }
    AnalysisAmounts(rows);
  }

  // ===================== filters =====================

  /** `get_reconciliation_filters`: one predicate per status. */
  datatype ReconciliationFilters = ReconciliationFilters(
    balancedFilter: ReconciledClaim -> bool,
    overpaidFilter: ReconciledClaim -> bool,
    underpaidFilter: ReconciledClaim -> bool)

  function GetReconciliationFilters(): (f: ReconciliationFilters)
    ensures forall row :: f.balancedFilter(row) <==> row.reconciliationStatus == Balanced
    ensures forall row :: f.overpaidFilter(row) <==> row.reconciliationStatus == Overpaid
    ensures forall row :: f.underpaidFilter(row) <==> row.reconciliationStatus == Underpaid
  {
    ReconciliationFilters(
      (row: ReconciledClaim) => row.reconciliationStatus == Balanced,
      (row: ReconciledClaim) => row.reconciliationStatus == Overpaid,
      (row: ReconciledClaim) => row.reconciliationStatus == Underpaid)
  }

  /** Every row satisfies exactly one of the three filters. */
  lemma FiltersPartitionRows(row: ReconciledClaim)
    ensures var f := GetReconciliationFilters();
            (f.balancedFilter(row) || f.overpaidFilter(row) || f.underpaidFilter(row))
            && !(f.balancedFilter(row) && f.overpaidFilter(row))
            && !(f.balancedFilter(row) && f.underpaidFilter(row))
            && !(f.overpaidFilter(row) && f.underpaidFilter(row))
  {
  }

  lemma {:induction false} CountMatchesSelect(rows: seq<ReconciledClaim>, s: Status, p: ReconciledClaim -> bool)
    requires forall row :: p(row) <==> row.reconciliationStatus == s
    ensures Count(rows, p) == StatusCount(rows, s)
  {
    if |rows| > 0 {
      CountMatchesSelect(rows[1..], s, p);
    }
  }

  /** Selecting rows with a filter keeps exactly the rows the analyzer
      counts for that status. */
  lemma FilteredCountsMatchSummary(rows: seq<ReconciledClaim>)
    ensures Count(rows, GetReconciliationFilters().balancedFilter) == StatusCount(rows, Balanced)
    ensures Count(rows, GetReconciliationFilters().overpaidFilter) == StatusCount(rows, Overpaid)
    ensures Count(rows, GetReconciliationFilters().underpaidFilter) == StatusCount(rows, Underpaid)
  {
    var f := GetReconciliationFilters();
    CountMatchesSelect(rows, Balanced, f.balancedFilter);
    CountMatchesSelect(rows, Overpaid, f.overpaidFilter);
    CountMatchesSelect(rows, Underpaid, f.underpaidFilter);
  }
}
