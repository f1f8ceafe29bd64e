/** Worked examples of the engine on small concrete inputs. */
module Scenarios {
  import opened Wrappers
  import opened Seqs
  import opened Constants
  import opened Schemas
  import opened Loader
  import opened Reconciliation

  const Day: Date := Date(2024, 1, 15)

  function Inv(invoiceId: string, claimId: string, value: real): Invoice {
    Invoice(invoiceId, claimId, ProcedurePayment, value, Day)
  }

  /** Two partial payments that add up to the benefit: BALANCED, and the
      summary is all-balanced with zero amounts. */
  lemma PartialPaymentsBalance()
    ensures var rows := ReconcileClaims([Claim("C1", 1, Day, 100.0, 80.0)],
                                        [Inv("I1", "C1", 50.0), Inv("I2", "C1", 30.0)]);
            && rows == [ReconciledClaim("C1", 1, 100.0, 80.0, 80.0, Balanced)]
            && AnalyzeReconciliationResults(rows)
               == Claims(1, Counted(1, 100.0), Valued(0, 0.0, 0.0), Valued(0, 0.0, 0.0),
                         Valued(0, 0.0, 0.0))
  {
    var claims := [Claim("C1", 1, Day, 100.0, 80.0)];
    var invoices := [Inv("I1", "C1", 50.0), Inv("I2", "C1", 30.0)];
    assert SumFor(invoices, "C1") == 80.0 by {
      assert invoices[1..][1..] == [];
    }
    var rows := ReconcileClaims(claims, invoices);
    assert Reconciles(rows[0], claims[0], invoices);
    assert rows == [ReconciledClaim("C1", 1, 100.0, 80.0, 80.0, Balanced)];
    assert rows[1..] == [];
    assert Select(rows, Balanced) == rows;
    assert Select(rows, Overpaid) == [];
    assert Select(rows, Underpaid) == [];
  }

  /** A payment above the benefit: OVERPAID by the difference. */
  lemma PaymentAboveBenefit()
    ensures var rows := ReconcileClaims([Claim("C2", 1, Day, 200.0, 150.0)], [Inv("I1", "C2", 200.0)]);
            && rows[0].reconciliationStatus == Overpaid
            && AnalyzeReconciliationResults(rows).overpaid == Valued(1, 100.0, 50.0)
  {
    var claims := [Claim("C2", 1, Day, 200.0, 150.0)];
    var invoices := [Inv("I1", "C2", 200.0)];
    assert SumFor(invoices, "C2") == 200.0 by {
      assert invoices[1..] == [];
    }
    var rows := ReconcileClaims(claims, invoices);
    assert Reconciles(rows[0], claims[0], invoices);
    assert rows == [ReconciledClaim("C2", 1, 200.0, 150.0, 200.0, Overpaid)];
    assert rows[1..] == [];
    assert Select(rows, Overpaid) == rows;
    assert Excess(rows) == 50.0;
    assert Percentage(1, 1) == 100.0;
  }

  /** A claim nobody paid: total 0, UNDERPAID by the whole benefit. */
  lemma UnpaidClaim()
    ensures var rows := ReconcileClaims([Claim("C3", 1, Day, 50.0, 50.0)], []);
            && rows == [ReconciledClaim("C3", 1, 50.0, 50.0, 0.0, Underpaid)]
            && AnalyzeReconciliationResults(rows).underpaid == Valued(1, 100.0, 50.0)
  {
    var claims := [Claim("C3", 1, Day, 50.0, 50.0)];
    var rows := ReconcileClaims(claims, []);
    assert Reconciles(rows[0], claims[0], []);
    assert rows == [ReconciledClaim("C3", 1, 50.0, 50.0, 0.0, Underpaid)];
    assert rows[1..] == [];
    assert Select(rows, Underpaid) == rows;
    assert Shortfall(rows) == 50.0;
    assert Percentage(1, 1) == 100.0;
  }

  /** The empty input has the zero-claims shape. */
  lemma NoClaimsSummary()
    ensures AnalyzeReconciliationResults([])
            == NoClaims(0, Counted(0, 0.0), Counted(0, 0.0), Counted(0, 0.0))
  {
  }

  /** An id on three rows is one duplicate id, not two extra rows. */
  lemma ThriceRepeatedIdIsOneDuplicate()
    ensures |Duplicated(["C1", "C1", "C1", "C2"])| == 1
  {
    var ids := ["C1", "C1", "C1", "C2"];
    assert multiset(ids) == multiset{"C1", "C1", "C1", "C2"};
    assert multiset(ids)["C1"] == 3 && multiset(ids)["C2"] == 1;
    assert Duplicated(ids) == {"C1"};
  }

  /** A claims file without `date_of_service` is rejected naming just that column. */
  lemma MissingDateColumn(rows: seq<RawClaim>, order: seq<ClaimColumn>)
    requires EnumeratesClaimColumns(order)
    ensures LoadClaims(Table({"claim_id", "patient_id", "charges_amount", "benefit_amount"}, rows), order)
            == Failure(MissingColumns({"date_of_service"}))
  {
    var present := {"claim_id", "patient_id", "charges_amount", "benefit_amount"};
    assert ClaimsRequiredColumns
           == {"claim_id", "patient_id", "date_of_service", "charges_amount", "benefit_amount"};
    assert ClaimsRequiredColumns - present == {"date_of_service"};
  }

  /** A row with negative charges and a benefit above them is reported for
      its charges only: that check runs first. */
  lemma NegativeChargesReportedFirst(order: seq<ClaimColumn>)
    requires EnumeratesClaimColumns(order)
    ensures CheckClaims([RawClaim(Some("C1"), Some(7), Some(Day), Some(-5.0), Some(10.0))], order)
            == Fail(NegativeChargesAmounts(1))
  {
    var rows := [RawClaim(Some("C1"), Some(7), Some(Day), Some(-5.0), Some(10.0))];
    assert rows[1..] == [];
    assert NoNullClaimCells(rows);
    ClaimNullsPassIffComplete(rows, order);
    assert Count(rows, NonPositivePatientId) == 0;
    assert Count(rows, NegativeCharges) == 1;
  }
}
