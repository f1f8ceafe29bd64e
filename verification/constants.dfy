/** Business-domain constants: the valid bill types and the three
    reconciliation statuses (src/constants/constants.py). */
module Constants {
  import opened Wrappers

  /** The two accepted values of an invoice's `type_of_bill`. */
  datatype BillType = Fee | ProcedurePayment {
    function Label(): string {
      match this
      case Fee => "fee"
      case ProcedurePayment => "procedure payment"
    }
  }

  const ValidTypeOfBill: set<string> := {"fee", "procedure payment"}

  /** Reads a `type_of_bill` cell; only the valid labels are accepted. */
  function ParseBillType(s: string): (b: Option<BillType>)
    ensures b.Some? <==> s in ValidTypeOfBill
    ensures b.Some? ==> b.value.Label() == s
  {
    if s == "fee" then Some(Fee)
    else if s == "procedure payment" then Some(ProcedurePayment)
    else None
  }

  /** Every bill type is read back from its own label. */
  lemma BillTypeRoundTrip(b: BillType)
    ensures ParseBillType(b.Label()) == Some(b)
    ensures b.Label() in ValidTypeOfBill
  {
  }

  /** The reconciliation status of a claim. */
  datatype Status = Balanced | Overpaid | Underpaid {
    function Label(): string {
      match this
      case Balanced => "BALANCED"
      case Overpaid => "OVERPAID"
      case Underpaid => "UNDERPAID"
    }
  }
}
