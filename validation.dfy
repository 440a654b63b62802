/**
 * The transaction validator: six property rules, each a chain of checks with
 * its own message. Every check of every rule is evaluated (FluentValidation's
 * default cascade mode), so a transaction gets one failure per failing check,
 * in rule order and, within a rule, in check order.
 */
module Validation {
  import opened Text
  import opened Transactions

  /** `NotEmpty()` on a string: not null, not empty, not only white space. */
  predicate NotEmpty(s: string) {
    !IsBlank(s)
  }

  /** `Matches(@"^\d+$")` as the .NET regular expression engine evaluates it:
      `$` without the multiline option also matches just before a final line
      feed, so one trailing '\n' after the digits is accepted. */
  predicate MatchesDigitsPatternAsWritten(s: string) {
    || (|s| > 0 && AllDigits(s))
    || (|s| > 1 && s[|s| - 1] == '\n' && AllDigits(s[..|s| - 1]))
  }

  /** What the CPF rule's message asks for: one or more digits and nothing else. */
  predicate IsDigitsOnly(s: string) {
    |s| > 0 && AllDigits(s)
  }

  /** The as-written pattern lets through an eleven-character CPF whose last
      character is a line feed. */
  lemma CpfPatternAcceptsTrailingLineFeed()
    ensures var cpf := "1234567890\n";
      && |cpf| == 11 && NotEmpty(cpf)
      && MatchesDigitsPatternAsWritten(cpf)
      && !IsDigitsOnly(cpf)
  {
    var cpf := "1234567890\n";
    assert cpf[..10] == "1234567890";
    assert !IsWhiteSpace(cpf[0]);
    assert !IsDigit(cpf[10]);
  }

  /** On text with no line feed, such as a field cut from a line that
      `ReadLine` returned, the pattern as written and the corrected predicate
      agree. */
  lemma {:induction false} CpfPatternAgreesWithoutLineFeed(s: string)
    requires forall i :: 0 <= i < |s| ==> s[i] != '\n'
    ensures MatchesDigitsPatternAsWritten(s) <==> IsDigitsOnly(s)
  {
    if |s| > 1 {
      assert s[|s| - 1] != '\n';
    }
  }

  /** The checks of the validator, in declaration order, each with the name of
      the property it belongs to and the message it reports. */
  datatype RuleCheck =
    | TypeIsInEnum
    | ValueGreaterThanZero
    | CpfNotEmpty | CpfLength | CpfMatchesDigits
    | CardNotEmpty | CardLength
    | StoreOwnerNotEmpty | StoreOwnerMaximumLength
    | StoreNameNotEmpty | StoreNameMaximumLength
  {
    function PropertyName(): string {
      match this
      case TypeIsInEnum => "Type"
      case ValueGreaterThanZero => "Value"
      case CpfNotEmpty | CpfLength | CpfMatchesDigits => "Cpf"
      case CardNotEmpty | CardLength => "Card"
      case StoreOwnerNotEmpty | StoreOwnerMaximumLength => "StoreOwner"
      case StoreNameNotEmpty | StoreNameMaximumLength => "StoreName"
    }

    function Message(): string {
      match this
      case TypeIsInEnum => "Invalid transaction type."
      case ValueGreaterThanZero => "Transaction value must be greater than zero."
      case CpfNotEmpty => "CPF is required."
      case CpfLength => "CPF must be exactly 11 characters."
      case CpfMatchesDigits => "CPF must contain only numbers."
      case CardNotEmpty => "Card number is required."
      case CardLength => "Card number must be exactly 12 characters."
      case StoreOwnerNotEmpty => "Store owner name is required."
      case StoreOwnerMaximumLength => "Store owner name must be 14 characters or fewer."
      case StoreNameNotEmpty => "Store name is required."
      case StoreNameMaximumLength => "Store name must be 19 characters or fewer."
    }

    /** The check's position in declaration order. */
    function Ordinal(): nat {
      match this
      case TypeIsInEnum => 0
      case ValueGreaterThanZero => 1
      case CpfNotEmpty => 2
      case CpfLength => 3
      case CpfMatchesDigits => 4
      case CardNotEmpty => 5
      case CardLength => 6
      case StoreOwnerNotEmpty => 7
      case StoreOwnerMaximumLength => 8
      case StoreNameNotEmpty => 9
      case StoreNameMaximumLength => 10
    }

    /** Whether the check passes on a transaction. */
    predicate Holds(t: Transaction) {
      match this
      case TypeIsInEnum => TypeOfCode(t.typeCode).Some?
      case ValueGreaterThanZero => t.value > 0
      case CpfNotEmpty => NotEmpty(t.cpf)
      case CpfLength => |t.cpf| == 11
      case CpfMatchesDigits => IsDigitsOnly(t.cpf)
      case CardNotEmpty => NotEmpty(t.card)
      case CardLength => |t.card| == 12
      case StoreOwnerNotEmpty => NotEmpty(t.storeOwner)
      case StoreOwnerMaximumLength => |t.storeOwner| <= 14
      case StoreNameNotEmpty => NotEmpty(t.storeName)
      case StoreNameMaximumLength => |t.storeName| <= 19
    }
  }

  /** All checks, in the order the validator declares them: the rules for
      Type, Value, Cpf, Card, StoreOwner and StoreName, each rule's checks in
      the order they are chained. */
  function AllChecks(): seq<RuleCheck> {
    [ TypeIsInEnum, ValueGreaterThanZero,
      CpfNotEmpty, CpfLength, CpfMatchesDigits,
      CardNotEmpty, CardLength,
      StoreOwnerNotEmpty, StoreOwnerMaximumLength,
      StoreNameNotEmpty, StoreNameMaximumLength ]
  }

  /** The checks of `cs` that fail on `t`, in the order of `cs`. */
  function Failing(cs: seq<RuleCheck>, t: Transaction): seq<RuleCheck> {
    if cs == [] then []
    else (if cs[0].Holds(t) then [] else [cs[0]]) + Failing(cs[1..], t)
  }

  /** `TransactionValidator.Validate(t).Errors`: the failed checks, in
      declaration order, each giving the failure's property name and message. */
  function Validate(t: Transaction): seq<RuleCheck> {
    Failing(AllChecks(), t)
  }

  /** The business rules, stated field by field. */
  predicate IsValidTransaction(t: Transaction) {
    && 1 <= t.typeCode <= 9
    && t.value > 0
    && |t.cpf| == 11 && AllDigits(t.cpf)
    && |t.card| == 12 && NotEmpty(t.card)
    && NotEmpty(t.storeOwner) && |t.storeOwner| <= 14
    && NotEmpty(t.storeName) && |t.storeName| <= 19
  }

  /** A transaction validates without errors exactly when every rule holds. */
  lemma ValidateIsEmptyIffValid(t: Transaction)
    ensures Validate(t) == [] <==> IsValidTransaction(t)
  {
    ValidateReportsEachCheck(t);
    if Validate(t) != [] {
      assert !Validate(t)[0].Holds(t);
    }
    assert (forall c: RuleCheck :: c.Holds(t)) <==>
      && TypeIsInEnum.Holds(t) && ValueGreaterThanZero.Holds(t)
      && CpfNotEmpty.Holds(t) && CpfLength.Holds(t) && CpfMatchesDigits.Holds(t)
      && CardNotEmpty.Holds(t) && CardLength.Holds(t)
      && StoreOwnerNotEmpty.Holds(t) && StoreOwnerMaximumLength.Holds(t)
      && StoreNameNotEmpty.Holds(t) && StoreNameMaximumLength.Holds(t);
    TypeCodes(t.typeCode, Debit);
    if |t.cpf| == 11 && AllDigits(t.cpf) {
      assert !IsWhiteSpace(t.cpf[0]);
    }
  }

  lemma {:induction false} FailingMembers(cs: seq<RuleCheck>, t: Transaction)
    ensures forall c :: c in Failing(cs, t) <==> c in cs && !c.Holds(t)
  {
    if cs != [] {
      FailingMembers(cs[1..], t);
      assert forall c :: c in cs <==> c == cs[0] || c in cs[1..];
    }
  }

  lemma {:induction false} FailingDistinct(cs: seq<RuleCheck>, t: Transaction)
    requires forall i, j :: 0 <= i < j < |cs| ==> cs[i] != cs[j]
    ensures forall i, j :: 0 <= i < j < |Failing(cs, t)| ==> Failing(cs, t)[i] != Failing(cs, t)[j]
  {
    if cs != [] {
      FailingDistinct(cs[1..], t);
      FailingMembers(cs[1..], t);
      assert cs[0] !in cs[1..];
    }
  }

  /** Every check is reported exactly when it fails, and at most once, so the
      number of failures is the number of failing checks. */
  lemma ValidateReportsEachCheck(t: Transaction)
    ensures forall c :: c in Validate(t) <==> !c.Holds(t)
    ensures forall i, j :: 0 <= i < j < |Validate(t)| ==> Validate(t)[i] != Validate(t)[j]
  {
    forall c: RuleCheck ensures c in AllChecks() {
      assert AllChecks()[c.Ordinal()] == c;
    }
    assert forall i :: 0 <= i < |AllChecks()| ==> AllChecks()[i].Ordinal() == i;
    FailingMembers(AllChecks(), t);
    FailingDistinct(AllChecks(), t);
  }

  /** A transaction that passes validation has a CPF of exactly eleven digits:
      the property the corrected CPF pattern secures. */
  lemma ValidCpfIsElevenDigits(t: Transaction)
    requires Validate(t) == []
    ensures |t.cpf| == 11 && forall i :: 0 <= i < 11 ==> '0' <= t.cpf[i] <= '9'
  {
    ValidateIsEmptyIffValid(t);
  }
}
