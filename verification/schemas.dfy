/** Table schemas of the two inputs (src/models/schemas.py, src/models/types.py):
    the required columns, a loaded row as it may arrive (any cell may be null),
    and the typed row a validated table stands for. */
module Schemas {
  import opened Wrappers
  import opened Constants

  /** A calendar date; only its presence is checked by the loaders. */
  datatype Date = Date(year: int, month: int, day: int)

  /** A table as read: the column names present and its rows. */
  datatype Table<R> = Table(columns: set<string>, rows: seq<R>)

  // ----- claims -----

  datatype ClaimColumn =
    | ClaimIdColumn | PatientIdColumn | DateOfServiceColumn | ChargesColumn | BenefitColumn
  {
    function Name(): string {
      match this
      case ClaimIdColumn => "claim_id"
      case PatientIdColumn => "patient_id"
      case DateOfServiceColumn => "date_of_service"
      case ChargesColumn => "charges_amount"
      case BenefitColumn => "benefit_amount"
    }
  }

  const ClaimColumns: seq<ClaimColumn> :=
    [ClaimIdColumn, PatientIdColumn, DateOfServiceColumn, ChargesColumn, BenefitColumn]

  /** The keys of the claims schema. */
  const ClaimsRequiredColumns: set<string> := set c | c in ClaimColumns :: c.Name()

  /** A claims row as loaded; `None` is a null cell. */
  datatype RawClaim = RawClaim(
    claimId: Option<string>,
    patientId: Option<int>,
    dateOfService: Option<Date>,
    chargesAmount: Option<real>,
    benefitAmount: Option<real>)
  {
    predicate IsNull(c: ClaimColumn) {
      match c
      case ClaimIdColumn => claimId.None?
      case PatientIdColumn => patientId.None?
      case DateOfServiceColumn => dateOfService.None?
      case ChargesColumn => chargesAmount.None?
      case BenefitColumn => benefitAmount.None?
    }

    predicate Complete() {
      claimId.Some? && patientId.Some? && dateOfService.Some?
      && chargesAmount.Some? && benefitAmount.Some?
    }
  }

  /** A claim with every required field present. */
  datatype Claim = Claim(
    claimId: string,
    patientId: int,
    dateOfService: Date,
    chargesAmount: real,
    benefitAmount: real)

  function ToClaim(r: RawClaim): (c: Claim)
    requires r.Complete()
    ensures Some(c.claimId) == r.claimId && Some(c.patientId) == r.patientId
    ensures Some(c.dateOfService) == r.dateOfService
    ensures Some(c.chargesAmount) == r.chargesAmount && Some(c.benefitAmount) == r.benefitAmount
  {
    Claim(r.claimId.value, r.patientId.value, r.dateOfService.value,
          r.chargesAmount.value, r.benefitAmount.value)
  }

  // ----- invoices -----

  datatype InvoiceColumn =
    | InvoiceIdColumn | InvoiceClaimIdColumn | TypeOfBillColumn
    | TransactionValueColumn | DateOfTransactionColumn
  {
    function Name(): string {
      match this
      case InvoiceIdColumn => "invoice_id"
      case InvoiceClaimIdColumn => "claim_id"
      case TypeOfBillColumn => "type_of_bill"
      case TransactionValueColumn => "transaction_value"
      case DateOfTransactionColumn => "date_of_transaction"
    }
  }

  const InvoiceColumns: seq<InvoiceColumn> :=
    [InvoiceIdColumn, InvoiceClaimIdColumn, TypeOfBillColumn,
     TransactionValueColumn, DateOfTransactionColumn]

  /** The keys of the invoices schema. */
  const InvoicesRequiredColumns: set<string> := set c | c in InvoiceColumns :: c.Name()

  /** An invoices row as loaded; `None` is a null cell. */
  datatype RawInvoice = RawInvoice(
    invoiceId: Option<string>,
    claimId: Option<string>,
    typeOfBill: Option<string>,
    transactionValue: Option<real>,
    dateOfTransaction: Option<Date>)
  {
    predicate IsNull(c: InvoiceColumn) {
      match c
      case InvoiceIdColumn => invoiceId.None?
      case InvoiceClaimIdColumn => claimId.None?
      case TypeOfBillColumn => typeOfBill.None?
      case TransactionValueColumn => transactionValue.None?
      case DateOfTransactionColumn => dateOfTransaction.None?
    }

    predicate Complete() {
      invoiceId.Some? && claimId.Some? && typeOfBill.Some?
      && transactionValue.Some? && dateOfTransaction.Some?
    }
  }

  /** An invoice with every required field present and a recognised bill type. */
  datatype Invoice = Invoice(
    invoiceId: string,
    claimId: string,
    typeOfBill: BillType,
    transactionValue: real,
    dateOfTransaction: Date)

  function ToInvoice(r: RawInvoice): (inv: Invoice)
    requires r.Complete() && r.typeOfBill.value in ValidTypeOfBill
    ensures Some(inv.invoiceId) == r.invoiceId && Some(inv.claimId) == r.claimId
    ensures Some(inv.typeOfBill.Label()) == r.typeOfBill
    ensures Some(inv.transactionValue) == r.transactionValue
    ensures Some(inv.dateOfTransaction) == r.dateOfTransaction
  {
    Invoice(r.invoiceId.value, r.claimId.value, ParseBillType(r.typeOfBill.value).value,
            r.transactionValue.value, r.dateOfTransaction.value)
  }
}
