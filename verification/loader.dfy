/** Row-level validation of the claims and invoices tables and the
    required-columns check of each `load` (src/data/loader.py).

    Each validator runs its checks in a fixed order and the first failing
    check is the one reported, with the number of offending rows. A null cell
    is skipped by every comparison (it neither passes nor fails it), but the
    null checks come first, so later checks only ever see complete rows.

    The null checks walk the schema's key set, whose iteration order is not
    fixed; `order` is that iteration order and must list every column once. */
module Loader {
  import opened Wrappers
  import opened Seqs
  import opened Constants
  import opened Schemas

  datatype ValidationError =
    | MissingColumns(missing: set<string>)
    | NullClaimValues(claimColumn: ClaimColumn, count: nat)
    | NonPositivePatientIds(count: nat)
    | NegativeChargesAmounts(count: nat)
    | NegativeBenefitAmounts(count: nat)
    | BenefitsAboveCharges(count: nat)
    | DuplicateClaimIds(count: nat)
    | NullInvoiceValues(invoiceColumn: InvoiceColumn, count: nat)
    | InvalidTypesOfBill(count: nat)
    | NegativeTransactionValues(count: nat)
    | DuplicateInvoiceIds(count: nat)
  {
    predicate IsClaimsRowError() {
      NullClaimValues? || NonPositivePatientIds? || NegativeChargesAmounts?
      || NegativeBenefitAmounts? || BenefitsAboveCharges? || DuplicateClaimIds?
    }

    predicate IsInvoicesRowError() {
      NullInvoiceValues? || InvalidTypesOfBill? || NegativeTransactionValues?
      || DuplicateInvoiceIds?
    }
  }

  /** A required set that is not covered leaves something missing. */
  lemma NotSubsetLeavesMissing<T>(required: set<T>, present: set<T>)
    requires !(required <= present)
    ensures required - present != {}
  {
    var c :| c in required && c !in present;
    assert c in required - present;
  }

  // ===================== claims =====================

  /** The rules of the claims table; each holds of the rows that break it. */
  predicate NonPositivePatientId(r: RawClaim) {
    r.patientId.Some? && r.patientId.value <= 0
  }

  predicate NegativeCharges(r: RawClaim) {
    r.chargesAmount.Some? && r.chargesAmount.value < 0.0
  }

  predicate NegativeBenefit(r: RawClaim) {
    r.benefitAmount.Some? && r.benefitAmount.value < 0.0
  }

  predicate BenefitExceedsCharges(r: RawClaim) {
    r.benefitAmount.Some? && r.chargesAmount.Some?
    && r.benefitAmount.value > r.chargesAmount.value
  }

  function NullClaimCount(rows: seq<RawClaim>, c: ClaimColumn): nat {
    Count(rows, (r: RawClaim) => r.IsNull(c))
  }

  function ClaimIdsOf(rows: seq<RawClaim>): (ids: seq<Option<string>>)
    ensures |ids| == |rows|
    ensures forall i :: 0 <= i < |rows| ==> ids[i] == rows[i].claimId
  {
    seq(|rows|, i requires 0 <= i < |rows| => rows[i].claimId)
  }

  /** The number of claim ids that occur on more than one row. */
  function DuplicateClaimIdCount(rows: seq<RawClaim>): nat {
    |Duplicated(ClaimIdsOf(rows))|
  }

  /** `order` lists every claims column exactly once. */
  predicate EnumeratesClaimColumns(order: seq<ClaimColumn>) {
    Distinct(order) && forall c: ClaimColumn :: c in order
  }

  predicate FirstNullClaimColumn(rows: seq<RawClaim>, order: seq<ClaimColumn>, k: int) {
    && 0 <= k < |order|
    && NullClaimCount(rows, order[k]) > 0
    && forall j :: 0 <= j < k ==> NullClaimCount(rows, order[j]) == 0
  }

  predicate NoNullClaimCells(rows: seq<RawClaim>) {
    forall i :: 0 <= i < |rows| ==> rows[i].Complete()
  }

  /** A claims row that satisfies every row-level rule. */
  predicate ValidClaimRow(r: RawClaim) {
    && r.Complete()
    && r.patientId.value > 0
    && r.chargesAmount.value >= 0.0
    && r.benefitAmount.value >= 0.0
    && r.benefitAmount.value <= r.chargesAmount.value
  }

  predicate ValidClaimRows(rows: seq<RawClaim>) {
    && (forall i :: 0 <= i < |rows| ==> ValidClaimRow(rows[i]))
    && Distinct(ClaimIdsOf(rows))
  }

  /** The null checks from position `k` of `order` on, the earlier columns
      having passed. */
  function CheckClaimNullsFrom(rows: seq<RawClaim>, order: seq<ClaimColumn>, k: int)
    : (r: Outcome<ValidationError>)
    requires 0 <= k <= |order|
    requires forall j :: 0 <= j < k ==> NullClaimCount(rows, order[j]) == 0
    ensures r.Pass? <==> forall j :: 0 <= j < |order| ==> NullClaimCount(rows, order[j]) == 0
    ensures r.Fail? ==> exists j :: FirstNullClaimColumn(rows, order, j)
                                    && r.error == NullClaimValues(order[j], NullClaimCount(rows, order[j]))
    decreases |order| - k
  {
    if k == |order| then Pass
    else
      var n := NullClaimCount(rows, order[k]);
      if n > 0 then
        assert FirstNullClaimColumn(rows, order, k);
        Fail(NullClaimValues(order[k], n))
      else CheckClaimNullsFrom(rows, order, k + 1)
  }

  /** `ClaimsLoader._validate_data`: the first failing check, or `Pass`. */
  function CheckClaims(rows: seq<RawClaim>, order: seq<ClaimColumn>): (r: Outcome<ValidationError>)
    requires EnumeratesClaimColumns(order)
    ensures r.Fail? ==> r.error.IsClaimsRowError()
    ensures r.Fail? && r.error.NullClaimValues? ==>
              exists k :: FirstNullClaimColumn(rows, order, k) && r.error.claimColumn == order[k]
                          && r.error.count == NullClaimCount(rows, order[k])
    ensures r.Fail? && !r.error.NullClaimValues? ==> NoNullClaimCells(rows)
    ensures r.Fail? && r.error.NonPositivePatientIds? ==>
              r.error.count == Count(rows, NonPositivePatientId) > 0
    ensures r.Fail? && r.error.NegativeChargesAmounts? ==>
              && Count(rows, NonPositivePatientId) == 0
              && r.error.count == Count(rows, NegativeCharges) > 0
    ensures r.Fail? && r.error.NegativeBenefitAmounts? ==>
              && Count(rows, NonPositivePatientId) == 0 && Count(rows, NegativeCharges) == 0
              && r.error.count == Count(rows, NegativeBenefit) > 0
    ensures r.Fail? && r.error.BenefitsAboveCharges? ==>
              && Count(rows, NonPositivePatientId) == 0 && Count(rows, NegativeCharges) == 0
              && Count(rows, NegativeBenefit) == 0
              && r.error.count == Count(rows, BenefitExceedsCharges) > 0
    ensures r.Fail? && r.error.DuplicateClaimIds? ==>
              && Count(rows, NonPositivePatientId) == 0 && Count(rows, NegativeCharges) == 0
              && Count(rows, NegativeBenefit) == 0 && Count(rows, BenefitExceedsCharges) == 0
              && r.error.count == DuplicateClaimIdCount(rows) > 0
  {
    var nulls := CheckClaimNullsFrom(rows, order, 0);
    if nulls.Fail? then nulls
    else
      ClaimNullsPassIffComplete(rows, order);
      if Count(rows, NonPositivePatientId) > 0 then
        Fail(NonPositivePatientIds(Count(rows, NonPositivePatientId)))
      else if Count(rows, NegativeCharges) > 0 then
        Fail(NegativeChargesAmounts(Count(rows, NegativeCharges)))
      else if Count(rows, NegativeBenefit) > 0 then
        Fail(NegativeBenefitAmounts(Count(rows, NegativeBenefit)))
      else if Count(rows, BenefitExceedsCharges) > 0 then
        Fail(BenefitsAboveCharges(Count(rows, BenefitExceedsCharges)))
      else if DuplicateClaimIdCount(rows) > 0 then
        Fail(DuplicateClaimIds(DuplicateClaimIdCount(rows)))
      else Pass
  }

  /** When the null checks cover every column, they pass exactly on tables
      without a null cell. */
  lemma ClaimNullsPassIffComplete(rows: seq<RawClaim>, order: seq<ClaimColumn>)
    requires EnumeratesClaimColumns(order)
    ensures (forall j :: 0 <= j < |order| ==> NullClaimCount(rows, order[j]) == 0)
            <==> NoNullClaimCells(rows)
  {
    forall c: ClaimColumn
      ensures NullClaimCount(rows, c) == 0 <==> forall i :: 0 <= i < |rows| ==> !rows[i].IsNull(c)
    {
      CountZeroIff(rows, (r: RawClaim) => r.IsNull(c));
    }
    if forall j :: 0 <= j < |order| ==> NullClaimCount(rows, order[j]) == 0 {
      forall i | 0 <= i < |rows| ensures rows[i].Complete() {
        forall c: ClaimColumn ensures !rows[i].IsNull(c) {
          assert c in order;
        }
        assert !rows[i].IsNull(ClaimIdColumn) && !rows[i].IsNull(PatientIdColumn);
        assert !rows[i].IsNull(DateOfServiceColumn) && !rows[i].IsNull(ChargesColumn);
        assert !rows[i].IsNull(BenefitColumn);
      }
    }
  }

  /** The claims checks pass exactly on tables whose every row obeys every
      rule and whose claim ids are pairwise distinct. */
  lemma CheckClaimsPassIff(rows: seq<RawClaim>, order: seq<ClaimColumn>)
    requires EnumeratesClaimColumns(order)
    ensures CheckClaims(rows, order).Pass? <==> ValidClaimRows(rows)
  {
    ClaimNullsPassIffComplete(rows, order);
    CountZeroIff(rows, NonPositivePatientId);
    CountZeroIff(rows, NegativeCharges);
    CountZeroIff(rows, NegativeBenefit);
    CountZeroIff(rows, BenefitExceedsCharges);
    DuplicatedEmptyIff(ClaimIdsOf(rows));
    if ValidClaimRows(rows) {
      assert NoNullClaimCells(rows);
      assert forall i :: 0 <= i < |rows| ==> !NonPositivePatientId(rows[i]);
      assert forall i :: 0 <= i < |rows| ==> !NegativeCharges(rows[i]);
      assert forall i :: 0 <= i < |rows| ==> !NegativeBenefit(rows[i]);
      assert forall i :: 0 <= i < |rows| ==> !BenefitExceedsCharges(rows[i]);
    }
  }

  function ClaimIds(claims: seq<Claim>): seq<string> {
    seq(|claims|, i requires 0 <= i < |claims| => claims[i].claimId)
  }

  /** What a loaded claims table guarantees to the reconciliation engine. */
  predicate ValidClaims(claims: seq<Claim>) {
    && (forall i :: 0 <= i < |claims| ==>
          claims[i].patientId > 0
          && 0.0 <= claims[i].benefitAmount <= claims[i].chargesAmount)
    && Distinct(ClaimIds(claims))
  }

  /** `ClaimsLoader.load` after the file has been read: the required-columns
      check, then the row-level checks. */
  function LoadClaims(t: Table<RawClaim>, order: seq<ClaimColumn>)
    : (r: Result<seq<Claim>, ValidationError>)
    requires EnumeratesClaimColumns(order)
    ensures (r.Failure? && r.error.MissingColumns?) <==> !(ClaimsRequiredColumns <= t.columns)
    ensures r.Failure? && r.error.MissingColumns? ==>
              r.error.missing == ClaimsRequiredColumns - t.columns && r.error.missing != {}
    ensures r.Failure? && !r.error.MissingColumns? ==> CheckClaims(t.rows, order) == Fail(r.error)
    ensures r.Success? <==> ClaimsRequiredColumns <= t.columns && ValidClaimRows(t.rows)
    ensures r.Success? ==>
              && ValidClaims(r.value)
              && |r.value| == |t.rows|
              && forall i :: 0 <= i < |t.rows| ==> t.rows[i].Complete() && r.value[i] == ToClaim(t.rows[i])
  {
    if !(ClaimsRequiredColumns <= t.columns) then
      var missing := ClaimsRequiredColumns - t.columns;
      NotSubsetLeavesMissing(ClaimsRequiredColumns, t.columns);
      Failure(MissingColumns(missing))
    else
      CheckClaimsPassIff(t.rows, order);
      match CheckClaims(t.rows, order)
      case Fail(e) => Failure(e)
      case Pass =>
        var claims := seq(|t.rows|, i requires 0 <= i < |t.rows| => ToClaim(t.rows[i]));
        assert Distinct(ClaimIds(claims)) by {
          assert Distinct(ClaimIdsOf(t.rows));
          forall i, j | 0 <= i < j < |claims| ensures claims[i].claimId != claims[j].claimId {
            assert ClaimIdsOf(t.rows)[i] != ClaimIdsOf(t.rows)[j];
          }
        }
        Success(claims)
  }

  // ===================== invoices =====================

  /** The rules of the invoices table; each holds of the rows that break it. */
  predicate InvalidTypeOfBill(r: RawInvoice) {
    r.typeOfBill.Some? && r.typeOfBill.value !in ValidTypeOfBill
  }

  predicate NegativeTransaction(r: RawInvoice) {
    r.transactionValue.Some? && r.transactionValue.value < 0.0
  }

  function NullInvoiceCount(rows: seq<RawInvoice>, c: InvoiceColumn): nat {
    Count(rows, (r: RawInvoice) => r.IsNull(c))
  }

  function InvoiceIdsOf(rows: seq<RawInvoice>): (ids: seq<Option<string>>)
    ensures |ids| == |rows|
    ensures forall i :: 0 <= i < |rows| ==> ids[i] == rows[i].invoiceId
  {
    seq(|rows|, i requires 0 <= i < |rows| => rows[i].invoiceId)
  }

  /** The number of invoice ids that occur on more than one row. */
  function DuplicateInvoiceIdCount(rows: seq<RawInvoice>): nat {
    |Duplicated(InvoiceIdsOf(rows))|
  }

  /** `order` lists every invoices column exactly once. */
  predicate EnumeratesInvoiceColumns(order: seq<InvoiceColumn>) {
    Distinct(order) && forall c: InvoiceColumn :: c in order
  }

  predicate FirstNullInvoiceColumn(rows: seq<RawInvoice>, order: seq<InvoiceColumn>, k: int) {
    && 0 <= k < |order|
    && NullInvoiceCount(rows, order[k]) > 0
    && forall j :: 0 <= j < k ==> NullInvoiceCount(rows, order[j]) == 0
  }

  predicate NoNullInvoiceCells(rows: seq<RawInvoice>) {
    forall i :: 0 <= i < |rows| ==> rows[i].Complete()
  }

  /** An invoices row that satisfies every row-level rule. */
  predicate ValidInvoiceRow(r: RawInvoice) {
    && r.Complete()
    && r.typeOfBill.value in ValidTypeOfBill
    && r.transactionValue.value >= 0.0
  }

  predicate ValidInvoiceRows(rows: seq<RawInvoice>) {
    && (forall i :: 0 <= i < |rows| ==> ValidInvoiceRow(rows[i]))
    && Distinct(InvoiceIdsOf(rows))
  }

  function CheckInvoiceNullsFrom(rows: seq<RawInvoice>, order: seq<InvoiceColumn>, k: int)
    : (r: Outcome<ValidationError>)
    requires 0 <= k <= |order|
    requires forall j :: 0 <= j < k ==> NullInvoiceCount(rows, order[j]) == 0
    ensures r.Pass? <==> forall j :: 0 <= j < |order| ==> NullInvoiceCount(rows, order[j]) == 0
    ensures r.Fail? ==> exists j :: FirstNullInvoiceColumn(rows, order, j)
                                    && r.error == NullInvoiceValues(order[j], NullInvoiceCount(rows, order[j]))
    decreases |order| - k
  {
    if k == |order| then Pass
    else
      var n := NullInvoiceCount(rows, order[k]);
      if n > 0 then
        assert FirstNullInvoiceColumn(rows, order, k);
        Fail(NullInvoiceValues(order[k], n))
      else CheckInvoiceNullsFrom(rows, order, k + 1)
  }

  /** `InvoicesLoader._validate_data`: the first failing check, or `Pass`.
      An invoice's claim id is never compared with the claims table. */
  function CheckInvoices(rows: seq<RawInvoice>, order: seq<InvoiceColumn>): (r: Outcome<ValidationError>)
    requires EnumeratesInvoiceColumns(order)
    ensures r.Fail? ==> r.error.IsInvoicesRowError()
    ensures r.Fail? && r.error.NullInvoiceValues? ==>
              exists k :: FirstNullInvoiceColumn(rows, order, k) && r.error.invoiceColumn == order[k]
                          && r.error.count == NullInvoiceCount(rows, order[k])
    ensures r.Fail? && !r.error.NullInvoiceValues? ==> NoNullInvoiceCells(rows)
    ensures r.Fail? && r.error.InvalidTypesOfBill? ==>
              r.error.count == Count(rows, InvalidTypeOfBill) > 0
    ensures r.Fail? && r.error.NegativeTransactionValues? ==>
              && Count(rows, InvalidTypeOfBill) == 0
              && r.error.count == Count(rows, NegativeTransaction) > 0
    ensures r.Fail? && r.error.DuplicateInvoiceIds? ==>
              && Count(rows, InvalidTypeOfBill) == 0 && Count(rows, NegativeTransaction) == 0
              && r.error.count == DuplicateInvoiceIdCount(rows) > 0
  {
    var nulls := CheckInvoiceNullsFrom(rows, order, 0);
    if nulls.Fail? then nulls
    else
      InvoiceNullsPassIffComplete(rows, order);
      if Count(rows, InvalidTypeOfBill) > 0 then
        Fail(InvalidTypesOfBill(Count(rows, InvalidTypeOfBill)))
      else if Count(rows, NegativeTransaction) > 0 then
        Fail(NegativeTransactionValues(Count(rows, NegativeTransaction)))
      else if DuplicateInvoiceIdCount(rows) > 0 then
        Fail(DuplicateInvoiceIds(DuplicateInvoiceIdCount(rows)))
      else Pass
  }

  lemma InvoiceNullsPassIffComplete(rows: seq<RawInvoice>, order: seq<InvoiceColumn>)
    requires EnumeratesInvoiceColumns(order)
    ensures (forall j :: 0 <= j < |order| ==> NullInvoiceCount(rows, order[j]) == 0)
            <==> NoNullInvoiceCells(rows)
  {
    forall c: InvoiceColumn
      ensures NullInvoiceCount(rows, c) == 0 <==> forall i :: 0 <= i < |rows| ==> !rows[i].IsNull(c)
    {
      CountZeroIff(rows, (r: RawInvoice) => r.IsNull(c));
    }
    if forall j :: 0 <= j < |order| ==> NullInvoiceCount(rows, order[j]) == 0 {
      forall i | 0 <= i < |rows| ensures rows[i].Complete() {
        forall c: InvoiceColumn ensures !rows[i].IsNull(c) {
          assert c in order;
        }
        assert !rows[i].IsNull(InvoiceIdColumn) && !rows[i].IsNull(InvoiceClaimIdColumn);
        assert !rows[i].IsNull(TypeOfBillColumn) && !rows[i].IsNull(TransactionValueColumn);
        assert !rows[i].IsNull(DateOfTransactionColumn);
      }
    }
  }

  /** The invoices checks pass exactly on tables whose every row obeys every
      rule and whose invoice ids are pairwise distinct. */
  lemma CheckInvoicesPassIff(rows: seq<RawInvoice>, order: seq<InvoiceColumn>)
    requires EnumeratesInvoiceColumns(order)
    ensures CheckInvoices(rows, order).Pass? <==> ValidInvoiceRows(rows)
  {
    InvoiceNullsPassIffComplete(rows, order);
    CountZeroIff(rows, InvalidTypeOfBill);
    CountZeroIff(rows, NegativeTransaction);
    DuplicatedEmptyIff(InvoiceIdsOf(rows));
    if ValidInvoiceRows(rows) {
      assert NoNullInvoiceCells(rows);
      assert forall i :: 0 <= i < |rows| ==> !InvalidTypeOfBill(rows[i]);
      assert forall i :: 0 <= i < |rows| ==> !NegativeTransaction(rows[i]);
    }
  }

  function InvoiceIds(invoices: seq<Invoice>): seq<string> {
    seq(|invoices|, i requires 0 <= i < |invoices| => invoices[i].invoiceId)
  }

  /** What a loaded invoices table guarantees to the reconciliation engine. */
  predicate ValidInvoices(invoices: seq<Invoice>) {
    && (forall i :: 0 <= i < |invoices| ==> invoices[i].transactionValue >= 0.0)
    && Distinct(InvoiceIds(invoices))
  }

  /** `InvoicesLoader.load` after the file has been read. */
  function LoadInvoices(t: Table<RawInvoice>, order: seq<InvoiceColumn>)
    : (r: Result<seq<Invoice>, ValidationError>)
    requires EnumeratesInvoiceColumns(order)
    ensures (r.Failure? && r.error.MissingColumns?) <==> !(InvoicesRequiredColumns <= t.columns)
    ensures r.Failure? && r.error.MissingColumns? ==>
              r.error.missing == InvoicesRequiredColumns - t.columns && r.error.missing != {}
    ensures r.Failure? && !r.error.MissingColumns? ==> CheckInvoices(t.rows, order) == Fail(r.error)
    ensures r.Success? <==> InvoicesRequiredColumns <= t.columns && ValidInvoiceRows(t.rows)
    ensures r.Success? ==>
              && ValidInvoices(r.value)
              && |r.value| == |t.rows|
              && forall i :: 0 <= i < |t.rows| ==> ValidInvoiceRow(t.rows[i]) && r.value[i] == ToInvoice(t.rows[i])
  {
    if !(InvoicesRequiredColumns <= t.columns) then
      var missing := InvoicesRequiredColumns - t.columns;
      NotSubsetLeavesMissing(InvoicesRequiredColumns, t.columns);
      Failure(MissingColumns(missing))
    else
      CheckInvoicesPassIff(t.rows, order);
      match CheckInvoices(t.rows, order)
      case Fail(e) => Failure(e)
      case Pass =>
        var invoices := seq(|t.rows|, i requires 0 <= i < |t.rows| && ValidInvoiceRow(t.rows[i]) => ToInvoice(t.rows[i]));
        assert Distinct(InvoiceIds(invoices)) by {
          assert Distinct(InvoiceIdsOf(t.rows));
          forall i, j | 0 <= i < j < |invoices| ensures invoices[i].invoiceId != invoices[j].invoiceId {
            assert InvoiceIdsOf(t.rows)[i] != InvoiceIdsOf(t.rows)[j];
          }
        }
        Success(invoices)
  }
}
