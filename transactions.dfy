/**
 * The transaction entity: its type enumeration, the constructor that trims
 * the two names, and the signed value used by the balance report.
 * Amounts are exact decimals with two places, held here as integer cents.
 */
module Transactions {
  import opened Wrappers
  import opened Text
  import opened Timestamps

  /** The nine transaction kinds of the batch layout. */
  datatype TransactionType =
    | Debit | Boleto | Financing | Credit | LoanReceipt
    | Sales | TedReceipt | DocReceipt | Rent
  {
    /** The enum's underlying integer. */
    function Code(): (c: int)
      ensures 1 <= c <= 9
    {
      match this
      case Debit => 1
      case Boleto => 2
      case Financing => 3
      case Credit => 4
      case LoanReceipt => 5
      case Sales => 6
      case TedReceipt => 7
      case DocReceipt => 8
      case Rent => 9
    }

    /** Money leaving the store: a boleto payment, a financing or rent. */
    predicate IsOutflow() {
      this == Boleto || this == Financing || this == Rent
    }
  }

  /** The named member of the enumeration an integer stands for, if any
      (`Enum.IsDefined`). */
  function TypeOfCode(code: int): Option<TransactionType> {
    match code
    case 1 => Some(Debit)
    case 2 => Some(Boleto)
    case 3 => Some(Financing)
    case 4 => Some(Credit)
    case 5 => Some(LoanReceipt)
    case 6 => Some(Sales)
    case 7 => Some(TedReceipt)
    case 8 => Some(DocReceipt)
    case 9 => Some(Rent)
    case _ => None
  }

  /** Codes and kinds correspond one to one, and exactly the codes 1..9 are
      defined. */
  lemma TypeCodes(code: int, t: TransactionType)
    ensures TypeOfCode(t.Code()) == Some(t)
    ensures TypeOfCode(code).Some? <==> 1 <= code <= 9
    ensures TypeOfCode(code) == Some(t) ==> t.Code() == code
  {
  }

  /** A transaction. The type is kept as the integer code it was built from:
      the cast to the enumeration does not range-check, so an undefined code
      survives until validation. `value` is in cents. The generated `Id` is
      not part of the model. */
  datatype Transaction = Transaction(
    typeCode: int,
    date: DateTime,
    value: int,
    cpf: string,
    card: string,
    storeOwner: string,
    storeName: string)

  /** The seven-argument constructor. */
  function NewTransaction(typeCode: int, date: DateTime, value: int, cpf: string, card: string,
                          storeOwner: string, storeName: string): (t: Transaction)
    ensures t.typeCode == typeCode && t.date == date && t.value == value
    ensures t.cpf == cpf && t.card == card
    ensures IsTrimmed(t.storeOwner) && IsTrimmed(t.storeName)
    ensures |t.storeOwner| <= |storeOwner| && |t.storeName| <= |storeName|
  {
    Transaction(typeCode, date, value, cpf, card, Trim(storeOwner), Trim(storeName))
  }

  /** Building from names that are already trimmed keeps them as given, and
      rebuilding a transaction from its own fields gives the same transaction. */
  lemma NewTransactionKeepsTrimmed(t: Transaction)
    requires IsTrimmed(t.storeOwner) && IsTrimmed(t.storeName)
    ensures NewTransaction(t.typeCode, t.date, t.value, t.cpf, t.card, t.storeOwner, t.storeName) == t
  {
    TrimOfTrimmed(t.storeOwner);
    TrimOfTrimmed(t.storeName);
  }

  /** `GetSignedValue`: the switch on the enumeration sends Boleto (2),
      Financing (3) and Rent (9) to the negated amount and every other code,
      defined or not, to the amount itself. */
  function SignedValue(t: Transaction): int {
    match t.typeCode
    case 2 => -t.value
    case 3 => -t.value
    case 9 => -t.value
    case _ => t.value
  }

  /** The code names one of the outflow kinds of the enumeration. */
  predicate IsOutflowCode(code: int) {
    TypeOfCode(code).Some? && TypeOfCode(code).value.IsOutflow()
  }

  /** The sign is decided by the type alone: the signed value has the amount's
      magnitude, and it is negated exactly for the outflow kinds; a code outside
      the enumeration takes the default arm. */
  lemma SignedValueSign(t: Transaction)
    ensures SignedValue(t) == t.value || SignedValue(t) == -t.value
    ensures IsOutflowCode(t.typeCode) ==> SignedValue(t) == -t.value
    ensures !IsOutflowCode(t.typeCode) ==> SignedValue(t) == t.value
    ensures t.value > 0 ==> (SignedValue(t) < 0 <==> t.typeCode in {2, 3, 9})
  {
  }

}
