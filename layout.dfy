/**
 * The batch layout read the other way: a transaction written out as a
 * record line. The parser never writes lines; the encoder is the partner
 * against which its decoding is stated.
 */
module RecordLayout {
  import opened Wrappers
  import opened Text
  import opened Timestamps
  import opened Transactions
  import opened Validation
  import opened Parsing

  /** Whether a transaction can be written in the fixed widths: a one-digit
      type, a representable instant, an amount of at most ten digits of
      cents, and CPF, card and names no wider than their fields. */
  predicate Fits(t: Transaction) {
    && 0 <= t.typeCode <= 9
    && Valid(t.date)
    && 0 <= t.value < Pow10(10)
    && |t.cpf| == 11 && |t.card| == 12
    && |t.storeOwner| <= 14 && |t.storeName| <= 19
  }

  /** The fields of the record for `t`: numbers zero-padded, names
      space-padded to the right. */
  function FieldsOf(t: Transaction): (f: LineFields)
    requires Fits(t)
    ensures |f.typeText| == 1 && |f.dateText| == 8 && |f.amountText| == 10
    ensures |f.cpf| == 11 && |f.card| == 12 && |f.timeText| == 6 && |f.owner| == 14
    ensures |f.store| == 19
  {
    var stamp := Format(t.date);
    LineFields([DigitChar(t.typeCode)], stamp[..8], Pad(t.value, 10), t.cpf, t.card, stamp[8..],
               t.storeOwner + Spaces(14 - |t.storeOwner|), t.storeName + Spaces(19 - |t.storeName|))
  }

  /** The record line for `t`. */
  function Encode(t: Transaction): (line: string)
    requires Fits(t)
    ensures |line| == 81
  {
    Layout(FieldsOf(t))
  }

  /** Slicing the line written for a transaction gives its fields back,
      with the store name's padding removed. */
  lemma SliceEncode(t: Transaction)
    requires Fits(t) && IsTrimmed(t.storeName)
    ensures SliceFields(Encode(t)) == FieldsOf(t).(store := t.storeName)
  {
    SliceFieldsOfLayout(FieldsOf(t));
    TrimEndOfPadded(t.storeName, Spaces(19 - |t.storeName|));
  }

  /** The line written for a transaction is a record: long enough, and
      starting with a digit. */
  lemma EncodeIsRecord(t: Transaction)
    requires Fits(t)
    ensures !IsSkipped(Encode(t))
  {
    var f := FieldsOf(t);
    assert Encode(t)[0] == f.typeText[0] == DigitChar(t.typeCode);
  }

  /** The type and amount fields written for a transaction parse back to its
      type and amount. */
  lemma ParseEncodedNumbers(t: Transaction)
    requires Fits(t)
    ensures ParseInteger(FieldsOf(t).typeText) == Some(t.typeCode)
    ensures ParseInteger(FieldsOf(t).amountText) == Some(t.value)
  {
    ParseOneChar(DigitChar(t.typeCode));
    ParseDigits(Pad(t.value, 10));
  }

  /** Decoding the line written for a transaction with trimmed names gives
      the transaction back, whatever the current time. */
  lemma DecodeEncode(t: Transaction, now: DateTime)
    requires Fits(t) && IsTrimmed(t.storeOwner) && IsTrimmed(t.storeName)
    ensures !IsSkipped(Encode(t))
    ensures DecodeRecord(SliceFields(Encode(t)), now) == Some(t)
  {
    EncodeIsRecord(t);
    SliceEncode(t);
    var g := FieldsOf(t).(store := t.storeName);
    ParseEncodedNumbers(t);
    assert ParseInteger(g.typeText) == Some(t.typeCode);
    assert ParseInteger(g.amountText) == Some(t.value);
    DecodeEncodeDate(t, g, now);
    DecodeEncodeNames(t, g);
  }

  lemma DecodeEncodeDate(t: Transaction, g: LineFields, now: DateTime)
    requires Fits(t) && g.dateText == Format(t.date)[..8] && g.timeText == Format(t.date)[8..]
    ensures DateOrNow(g, now) == t.date
  {
    assert g.dateText + g.timeText == Format(t.date);
    ParseFormat(t.date);
  }

  lemma DecodeEncodeNames(t: Transaction, g: LineFields)
    requires Fits(t) && IsTrimmed(t.storeOwner) && IsTrimmed(t.storeName)
    requires g.cpf == t.cpf && g.card == t.card
    requires g.owner == t.storeOwner + Spaces(14 - |t.storeOwner|) && g.store == t.storeName
    ensures NewTransaction(t.typeCode, t.date, t.value, g.cpf, g.card, g.owner, g.store) == t
  {
    TrimOfPadded(t.storeOwner, Spaces(14 - |t.storeOwner|));
    TrimOfTrimmed(t.storeName);
  }

  /** Every valid transaction with trimmed names that fits the layout is
      accepted, unchanged, from the line written for it, and raises nothing. */
  lemma EncodedValidIsAccepted(t: Transaction, now: DateTime)
    requires Fits(t) && IsTrimmed(t.storeOwner) && IsTrimmed(t.storeName)
    requires IsValidTransaction(t)
    ensures ProcessLine(Encode(t), now) == Accepted(t)
  {
    DecodeEncode(t, now);
    ValidateIsEmptyIffValid(t);
  }
}
