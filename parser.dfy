/**
 * The fixed-width batch-file parser. Each physical line of at least 80
 * characters is cut into eight positional fields, normalised into a
 * transaction and validated; blank and short lines are skipped in silence,
 * a line whose type or amount is not a number is reported once as
 * malformed, and a line that fails validation is reported once per failed
 * check. Nothing aborts the batch.
 *
 * The stream is given as its sequence of lines, and the current UTC time,
 * used when the date and time fields do not parse, as the parameter `now`.
 */
module Parsing {
  import opened Wrappers
  import opened Text
  import opened Timestamps
  import opened Transactions
  import opened Validation
  import opened Notifications

  /** Lines shorter than this are not records. */
  const MinLineLength := 80

  /** The eight raw fields of a record line. */
  datatype LineFields = LineFields(
    typeText: string,    // [0, 1)
    dateText: string,    // [1, 9)    yyyyMMdd
    amountText: string,  // [9, 19)   unscaled cents
    cpf: string,         // [19, 30)
    card: string,        // [30, 42)
    timeText: string,    // [42, 48)  HHmmss
    owner: string,       // [48, 62)
    store: string)       // [62, end), right-trimmed

  /** Whether the parser passes over a line without looking at it. */
  predicate IsSkipped(line: string) {
    IsBlank(line) || |line| < MinLineLength
  }

  /** Cuts a line of at least 80 characters into its fields. The store name is
      the rest of the line, so a line of exactly 80 characters is in range. */
  function SliceFields(line: string): (f: LineFields)
    requires |line| >= MinLineLength
    ensures |f.typeText| == 1 && |f.dateText| == 8 && |f.amountText| == 10
    ensures |f.cpf| == 11 && |f.card| == 12 && |f.timeText| == 6 && |f.owner| == 14
    ensures f.typeText + f.dateText + f.amountText + f.cpf + f.card + f.timeText + f.owner
              == line[..62]
    ensures f.store == TrimEnd(line[62..])
  {
    var f := LineFields(line[0..1], line[1..9], line[9..19], line[19..30], line[30..42],
                        line[42..48], line[48..62], TrimEnd(line[62..]));
    assert line[..62] == line[0..1] + line[1..9] + line[9..19] + line[19..30] + line[30..42]
                         + line[42..48] + line[48..62];
    f
  }

  /** The fields laid side by side, as a line of the file. */
  function Layout(f: LineFields): string {
    f.typeText + f.dateText + f.amountText + f.cpf + f.card + f.timeText + f.owner + f.store
  }

  /** Laying fields of the right widths side by side and slicing the result
      gives the same fields back, with the store's trailing white space
      removed. */
  lemma SliceFieldsOfLayout(f: LineFields)
    requires |f.typeText| == 1 && |f.dateText| == 8 && |f.amountText| == 10
    requires |f.cpf| == 11 && |f.card| == 12 && |f.timeText| == 6 && |f.owner| == 14
    requires |f.store| >= 18
    ensures |Layout(f)| >= MinLineLength
    ensures SliceFields(Layout(f)) == f.(store := TrimEnd(f.store))
  {
    var line := Layout(f);
    assert line[0..1] == f.typeText;
    assert line[1..9] == f.dateText;
    assert line[9..19] == f.amountText;
    assert line[19..30] == f.cpf;
    assert line[30..42] == f.card;
    assert line[42..48] == f.timeText;
    assert line[48..62] == f.owner;
    assert line[62..] == f.store;
  }

  /** The date and time fields as one timestamp, or `now` when they do not
      name one. */
  function DateOrNow(f: LineFields, now: DateTime): DateTime {
    match ParseExact(f.dateText + f.timeText)
    case Some(d) => d
    case None => now
  }


  /** What happens to one line. */
  datatype LineOutcome =
    | Skipped
    | Malformed
    | Rejected(failures: seq<RuleCheck>)
    | Accepted(transaction: Transaction)

  /** One iteration of the parser's loop, as a value. */
  function ProcessLine(line: string, now: DateTime): LineOutcome {
    if IsSkipped(line) then Skipped else ProcessRecord(SliceFields(line), now)
  }

  /** The decoding half of the `try` block: the type and the amount must be
      integer text (otherwise the parse throws and the line is malformed);
      the amount is in cents, and the date falls back to `now`. */
  function DecodeRecord(f: LineFields, now: DateTime): Option<Transaction> {
    match (ParseInteger(f.typeText), ParseInteger(f.amountText))
    case (Some(typeCode), Some(cents)) =>
      Some(NewTransaction(typeCode, DateOrNow(f, now), cents, f.cpf, f.card, f.owner, f.store))
    case _ => None
  }

  /** A record line, from its fields: decoded, then checked. */
  function ProcessRecord(f: LineFields, now: DateTime): LineOutcome {
    match DecodeRecord(f, now)
    case None => Malformed
    case Some(t) => CheckTransaction(t)
  }

  /** Validation of a built transaction. */
  function CheckTransaction(t: Transaction): LineOutcome {
    var failures := Validate(t);
    if failures != [] then Rejected(failures) else Accepted(t)
  }

  /** The key of a notification about line `n` (1-based). */
  function LineKey(n: nat): string {
    "Line " + NatToString(n)
  }

  const InvalidFormat := "Invalid data format in line."

  /** The notification for one failed check on line `n`. */
  function FailureNote(n: nat, c: RuleCheck): Notification {
    Notification(LineKey(n) + ": " + c.PropertyName(), c.Message())
  }

  /** The notifications for the failed checks of line `n`: one per check, in
      the order of the checks. */
  function FailureNotes(n: nat, cs: seq<RuleCheck>): (r: seq<Notification>)
    ensures |r| == |cs|
    ensures forall i :: 0 <= i < |cs| ==> r[i] == FailureNote(n, cs[i])
  {
    if cs == [] then [] else FailureNotes(n, cs[..|cs| - 1]) + [FailureNote(n, cs[|cs| - 1])]
  }

  /** The notifications one line raises. */
  function LineNotes(o: LineOutcome, n: nat): seq<Notification> {
    match o
    case Skipped => []
    case Accepted(_) => []
    case Malformed => [Notification(LineKey(n), InvalidFormat)]
    case Rejected(cs) => FailureNotes(n, cs)
  }

  /** The transactions one line contributes. */
  function LineTransactions(o: LineOutcome): seq<Transaction> {
    if o.Accepted? then [o.transaction] else []
  }

  /** An outcome that raises no notification. */
  predicate IsSilent(o: LineOutcome) {
    o.Skipped? || o.Accepted?
  }

  datatype ParseResult = ParseResult(transactions: seq<Transaction>, notifications: seq<Notification>)

  /** The whole batch: accepted transactions in file order and the
      notifications raised, line by line. Line `i` (0-based) is reported as
      line `i + 1`, whether or not earlier lines were skipped. */
  function ParseLines(lines: seq<string>, now: DateTime): ParseResult {
    if lines == [] then ParseResult([], [])
    else
      var before := ParseLines(lines[..|lines| - 1], now);
      var o := ProcessLine(lines[|lines| - 1], now);
      ParseResult(before.transactions + LineTransactions(o),
                  before.notifications + LineNotes(o, |lines|))
  }

  /** One more line extends the result by that line's outcome. */
  lemma ParseLinesStep(lines: seq<string>, i: nat, now: DateTime)
    requires i < |lines|
    ensures var o := ProcessLine(lines[i], now);
            ParseLines(lines[..i + 1], now)
              == ParseResult(ParseLines(lines[..i], now).transactions + LineTransactions(o),
                             ParseLines(lines[..i], now).notifications + LineNotes(o, i + 1))
  {
    assert lines[..i + 1][..i] == lines[..i];
  }

  /** The result for one more line, from the result so far. */
  lemma ParseLinesNext(lines: seq<string>, i: nat, now: DateTime, before: ParseResult) returns (after: ParseResult)
    requires i < |lines| && before == ParseLines(lines[..i], now)
    ensures after == ParseLines(lines[..i + 1], now)
    ensures var o := ProcessLine(lines[i], now);
            after == ParseResult(before.transactions + LineTransactions(o),
                                 before.notifications + LineNotes(o, i + 1))
  {
    ParseLinesStep(lines, i, now);
    after := ParseLines(lines[..i + 1], now);
  }

  lemma AppendAssoc<T>(a: seq<T>, b: seq<T>, c: seq<T>)
    ensures (a + b) + c == a + (b + c)
  {
  }

  // ---------------------------------------------------------------------
  // One line
  // ---------------------------------------------------------------------

  /** A blank line, or one shorter than 80 characters, is passed over: it
      contributes no transaction and raises nothing. */
  lemma SkippedLineIsSilent(line: string, n: nat, now: DateTime)
    requires IsSkipped(line)
    ensures ProcessLine(line, now) == Skipped
    ensures LineTransactions(ProcessLine(line, now)) == [] && LineNotes(ProcessLine(line, now), n) == []
  {
  }

  /** Decoding a record succeeds exactly when the type character is a digit
      and the amount field is integer text (`int.Parse` and `decimal.Parse`
      throw otherwise). */
  lemma DecodeRecordSucceeds(line: string, now: DateTime)
    requires |line| >= MinLineLength
    ensures DecodeRecord(SliceFields(line), now).Some? <==>
              IsDigit(line[0]) && ParseInteger(line[9..19]).Some?
  {
    ParseOneChar(line[0]);
    assert SliceFields(line).typeText == [line[0]];
  }

  /** The type of a decoded record is the value of its type digit. */
  lemma DecodeRecordType(line: string, now: DateTime)
    requires |line| >= MinLineLength && DecodeRecord(SliceFields(line), now).Some?
    ensures IsDigit(line[0])
    ensures DecodeRecord(SliceFields(line), now).value.typeCode == DigitValue(line[0])
  {
    var f := SliceFields(line);
    assert f.typeText == [line[0]];
    ParseOneChar(line[0]);
  }

  /** The amount of a decoded record is the amount field's value, in cents. */
  lemma DecodeRecordAmount(line: string, now: DateTime)
    requires |line| >= MinLineLength && DecodeRecord(SliceFields(line), now).Some?
    ensures Some(DecodeRecord(SliceFields(line), now).value.value) == ParseInteger(line[9..19])
    ensures AllDigits(line[9..19]) ==>
              DecodeRecord(SliceFields(line), now).value.value == DigitsValue(line[9..19])
  {
    if AllDigits(line[9..19]) {
      ParseDigits(line[9..19]);
    }
  }

  /** The CPF and card of a decoded record are the fields verbatim, and both
      names are the fields trimmed on both sides. */
  lemma DecodeRecordText(line: string, now: DateTime)
    requires |line| >= MinLineLength && DecodeRecord(SliceFields(line), now).Some?
    ensures var t := DecodeRecord(SliceFields(line), now).value;
      && t.cpf == line[19..30]
      && t.card == line[30..42]
      && t.storeOwner == Trim(line[48..62])
      && t.storeName == Trim(line[62..])
  {
    TrimAfterTrimEnd(line[62..]);
  }

  /** The date of a decoded record is the instant its date and time fields
      name, or `now` when they name none. */
  lemma DecodeRecordDate(line: string, now: DateTime)
    requires |line| >= MinLineLength && DecodeRecord(SliceFields(line), now).Some?
    ensures var t := DecodeRecord(SliceFields(line), now).value;
      var stamp := ParseExact(line[1..9] + line[42..48]);
      && (stamp.Some? ==> t.date == stamp.value)
      && (stamp.None? ==> t.date == now)
  {
    var f := SliceFields(line);
    assert f.dateText + f.timeText == line[1..9] + line[42..48];
  }

  /** How a record line ends: malformed exactly when it does not decode;
      otherwise accepted, unchanged, exactly when the decoded transaction
      satisfies every business rule, and rejected with the validator's
      failures when it does not. */
  lemma {:induction false} ProcessLineCases(line: string, now: DateTime)
    ensures ProcessLine(line, now).Skipped? <==> IsSkipped(line)
    ensures !IsSkipped(line) ==>
      (ProcessLine(line, now).Malformed? <==> DecodeRecord(SliceFields(line), now).None?)
    ensures !IsSkipped(line) && DecodeRecord(SliceFields(line), now).Some? ==>
      var t := DecodeRecord(SliceFields(line), now).value;
      && (ProcessLine(line, now) == Accepted(t) <==> IsValidTransaction(t))
      && (ProcessLine(line, now).Rejected? <==> !IsValidTransaction(t))
      && (ProcessLine(line, now).Rejected? ==> ProcessLine(line, now).failures == Validate(t))
  {
    if !IsSkipped(line) && DecodeRecord(SliceFields(line), now).Some? {
      ValidateIsEmptyIffValid(DecodeRecord(SliceFields(line), now).value);
    }
  }

  /** A record whose type character is not a digit (the '-' of a negative
      type, a letter, a space) is reported once, as malformed, under the bare
      line key, and contributes nothing. */
  lemma NonDigitTypeIsMalformed(line: string, n: nat, now: DateTime)
    requires !IsSkipped(line) && !IsDigit(line[0])
    ensures ProcessLine(line, now) == Malformed
    ensures LineTransactions(ProcessLine(line, now)) == []
    ensures LineNotes(ProcessLine(line, now), n) == [Notification(LineKey(n), InvalidFormat)]
  {
    DecodeRecordSucceeds(line, now);
  }

  /** Every transaction the parser accepts is valid, has trimmed names, and
      has a type among the nine kinds. */
  lemma AcceptedIsValid(line: string, now: DateTime)
    requires ProcessLine(line, now).Accepted?
    ensures IsValidTransaction(ProcessLine(line, now).transaction)
    ensures TypeOfCode(ProcessLine(line, now).transaction.typeCode).Some?
    ensures IsTrimmed(ProcessLine(line, now).transaction.storeOwner)
    ensures IsTrimmed(ProcessLine(line, now).transaction.storeName)
  {
    ProcessLineCases(line, now);
    TypeCodes(ProcessLine(line, now).transaction.typeCode, Debit);
  }

  /** Three checks can never fail on a parsed line, because the fields are cut
      to width: the CPF is always 11 characters, the card always 12, and the
      trimmed owner at most 14. */
  lemma RejectedNeverForWidth(line: string, now: DateTime)
    requires ProcessLine(line, now).Rejected?
    ensures var cs := ProcessLine(line, now).failures;
      CpfLength !in cs && CardLength !in cs && StoreOwnerMaximumLength !in cs
  {
    ProcessLineCases(line, now);
    var t := DecodeRecord(SliceFields(line), now).value;
    DecodeRecordText(line, now);
    ValidateReportsEachCheck(t);
    assert CpfLength.Holds(t) && CardLength.Holds(t) && StoreOwnerMaximumLength.Holds(t);
  }

  /** The type check fails exactly for the type digit '0', the one digit
      outside the enumeration. */
  lemma RejectedTypeOnlyForZero(line: string, now: DateTime)
    requires ProcessLine(line, now).Rejected?
    ensures TypeIsInEnum in ProcessLine(line, now).failures <==> line[0] == '0'
  {
    ProcessLineCases(line, now);
    var t := DecodeRecord(SliceFields(line), now).value;
    DecodeRecordType(line, now);
    ValidateReportsEachCheck(t);
    TypeCodes(t.typeCode, Debit);
  }

  lemma {:induction false} FailingIgnoresDate(cs: seq<RuleCheck>, t: Transaction, d: DateTime)
    ensures Failing(cs, t.(date := d)) == Failing(cs, t)
  {
    if cs != [] {
      FailingIgnoresDate(cs[1..], t, d);
    }
  }

  /** The instant used as the fallback date never changes the fate of a line
      nor what it reports: it can only change the date of an accepted
      transaction. */
  lemma OutcomeIgnoresNow(line: string, n: nat, now1: DateTime, now2: DateTime)
    ensures ProcessLine(line, now1).Accepted? <==> ProcessLine(line, now2).Accepted?
    ensures LineNotes(ProcessLine(line, now1), n) == LineNotes(ProcessLine(line, now2), n)
    ensures ProcessLine(line, now1).Accepted? ==>
      ProcessLine(line, now1).transaction.(date := now2) == ProcessLine(line, now2).transaction.(date := now2)
  {
    if !IsSkipped(line) {
      var f := SliceFields(line);
      if DecodeRecord(f, now1).Some? {
        var t1 := DecodeRecord(f, now1).value;
        var t2 := DecodeRecord(f, now2).value;
        assert t2 == t1.(date := t2.date);
        FailingIgnoresDate(AllChecks(), t1, t2.date);
      }
    }
  }

  /** Each notification of a line carries that line's number: the key of a
      malformed line is the line key itself, and a rejected line raises, for
      each failed check in order, the line key followed by the property name,
      with the check's message as value. */
  lemma LineNotesOfLine(o: LineOutcome, n: nat)
    ensures o.Malformed? ==> LineNotes(o, n) == [Notification(LineKey(n), InvalidFormat)]
    ensures o.Rejected? ==> |LineNotes(o, n)| == |o.failures|
    ensures o.Rejected? ==> forall i :: 0 <= i < |o.failures| ==>
      LineNotes(o, n)[i] == Notification(LineKey(n) + ": " + o.failures[i].PropertyName(),
                                         o.failures[i].Message())
    ensures LineNotes(o, n) == [] <==> IsSilent(o) || (o.Rejected? && o.failures == [])
  {
  }

  /** Line keys tell lines apart. */
  lemma LineKeyInjective(m: nat, n: nat)
    requires LineKey(m) == LineKey(n)
    ensures m == n
  {
    assert LineKey(m)[5..] == NatToString(m);
    NatToStringInjective(m, n);
  }

  // ---------------------------------------------------------------------
  // The batch
  // ---------------------------------------------------------------------

  /** No more transactions than lines, and each one valid, with trimmed names. */
  lemma {:induction false} ParseLinesAccepted(lines: seq<string>, now: DateTime)
    ensures |ParseLines(lines, now).transactions| <= |lines|
    ensures forall t :: t in ParseLines(lines, now).transactions ==>
      IsValidTransaction(t) && IsTrimmed(t.storeOwner) && IsTrimmed(t.storeName)
  {
    if lines != [] {
      var last := lines[|lines| - 1];
      ParseLinesAccepted(lines[..|lines| - 1], now);
      if ProcessLine(last, now).Accepted? {
        AcceptedIsValid(last, now);
      }
    }
  }

  /** The batch raises nothing exactly when every line is skipped or accepted. */
  lemma {:induction false} ParseLinesSilent(lines: seq<string>, now: DateTime)
    ensures ParseLines(lines, now).notifications == [] <==>
      forall i :: 0 <= i < |lines| ==> IsSilent(ProcessLine(lines[i], now))
  {
    if lines != [] {
      var init := lines[..|lines| - 1];
      var last := lines[|lines| - 1];
      ParseLinesSilent(init, now);
      LineIsSilent(last, |lines|, now);
      SilentSnoc(lines, init, now);
      assert ParseLines(lines, now).notifications
             == ParseLines(init, now).notifications + LineNotes(ProcessLine(last, now), |lines|);
    }
  }

  /** Every line of a non-empty file is silent exactly when every line
      before the last is and the last is. */
  lemma {:induction false} SilentSnoc(lines: seq<string>, init: seq<string>, now: DateTime)
    requires lines != [] && init == lines[..|lines| - 1]
    ensures (forall i :: 0 <= i < |lines| ==> IsSilent(ProcessLine(lines[i], now))) <==>
      && (forall i :: 0 <= i < |init| ==> IsSilent(ProcessLine(init[i], now)))
      && IsSilent(ProcessLine(lines[|lines| - 1], now))
  {
    assert forall i :: 0 <= i < |init| ==> init[i] == lines[i];
  }

  /** A line raises nothing exactly when it is skipped or accepted: a
      rejected line always has at least one failure. */
  lemma LineIsSilent(line: string, n: nat, now: DateTime)
    ensures LineNotes(ProcessLine(line, now), n) == [] <==> IsSilent(ProcessLine(line, now))
  {
  }

  /** Reading more lines never takes back what earlier lines produced: the
      result for a prefix of the file is a prefix of the result for the file. */
  lemma {:induction false} ParseLinesPrefix(lines: seq<string>, k: nat, now: DateTime)
    requires k <= |lines|
    ensures ParseLines(lines[..k], now).transactions <= ParseLines(lines, now).transactions
    ensures ParseLines(lines[..k], now).notifications <= ParseLines(lines, now).notifications
  {
    if k < |lines| {
      var init := lines[..|lines| - 1];
      assert init[..k] == lines[..k];
      ParseLinesPrefix(init, k, now);
    } else {
      assert lines[..k] == lines;
    }
  }

  /** Appending a blank or short line changes neither the transactions nor
      the notifications. */
  lemma {:induction false} ParseLinesSkipsBlank(lines: seq<string>, blank: string, now: DateTime)
    requires IsSkipped(blank)
    ensures ParseLines(lines + [blank], now) == ParseLines(lines, now)
  {
    assert (lines + [blank])[..|lines|] == lines;
  }

  /** `CnabParser`: its bus is modelled as the notification handler the bus
      delivers to. */
  class CnabParser {
    const bus: NotificationHandler

    constructor (bus: NotificationHandler)
      ensures this.bus == bus
    {
      this.bus := bus;
    }

    /** `Parse`: reads the lines in order, returns the accepted transactions
        and raises the notifications on the bus. */
    method Parse(lines: seq<string>, now: DateTime) returns (transactions: seq<Transaction>)
      modifies bus
      ensures transactions == ParseLines(lines, now).transactions
      ensures bus.notifications == old(bus.notifications) + ParseLines(lines, now).notifications
    {
      transactions := [];
      var lineNumber := 0;
      ghost var done := ParseResult([], []);
      while lineNumber < |lines|
        invariant 0 <= lineNumber <= |lines|
        invariant done == ParseLines(lines[..lineNumber], now)
        invariant transactions == done.transactions
        invariant bus.notifications == old(bus.notifications) + done.notifications
      {
        ghost var outcome := ProcessLine(lines[lineNumber], now);
        ghost var before := done;
        done := ParseLinesNext(lines, lineNumber, now, before);
        lineNumber := lineNumber + 1;
        var line := lines[lineNumber - 1];

        if IsBlank(line) || |line| < MinLineLength {
          SkippedLineIsSilent(line, lineNumber, now);
          assert done == before;
          continue;
        }

        var accepted := ReadRecord(line, lineNumber, now);
        AppendAssoc(old(bus.notifications), before.notifications, LineNotes(outcome, lineNumber));
        if accepted.Some? {
          transactions := transactions + [accepted.value];
        }
        assert transactions == done.transactions;
      }
      assert lines[..lineNumber] == lines;
    }

    /** The `try` block of the loop for one record line: decodes, normalises
        and validates it, raising the line's notifications. A failed parse of
        the type or the amount is the `catch`. */
    method ReadRecord(line: string, lineNumber: nat, now: DateTime) returns (accepted: Option<Transaction>)
      requires !IsSkipped(line)
      modifies bus
      ensures LineTransactions(ProcessLine(line, now)) == if accepted.Some? then [accepted.value] else []
      ensures bus.notifications == old(bus.notifications) + LineNotes(ProcessLine(line, now), lineNumber)
    {
      var typeCode := ParseInteger(line[0..1]);
      if typeCode.None? {
        bus.Handle(Notification(LineKey(lineNumber), InvalidFormat));
        return None;
      }
      var dateStr := line[1..9];
      var valueStr := line[9..19];
      var cpf := line[19..30];
      var card := line[30..42];
      var timeStr := line[42..48];
      var owner := line[48..62];
      var store := TrimEnd(line[62..]);

      var value := ParseInteger(valueStr);
      if value.None? {
        bus.Handle(Notification(LineKey(lineNumber), InvalidFormat));
        return None;
      }

      var dateTime := now;
      var parsed := ParseExact(dateStr + timeStr);
      if parsed.Some? {
        dateTime := parsed.value;
      }

      var transaction := NewTransaction(typeCode.value, dateTime, value.value, cpf, card, owner, store);
      assert ProcessLine(line, now) == CheckTransaction(transaction);
      accepted := ValidateRecord(transaction, lineNumber);
    }

    /** The `if (!validationResult.IsValid)` branch: raises one notification
        per failed check, or accepts the transaction when there is none. */
    method ValidateRecord(transaction: Transaction, lineNumber: nat) returns (accepted: Option<Transaction>)
      modifies bus
      ensures LineTransactions(CheckTransaction(transaction)) == if accepted.Some? then [accepted.value] else []
      ensures bus.notifications == old(bus.notifications) + LineNotes(CheckTransaction(transaction), lineNumber)
    {
      var errors := Validate(transaction);
      if errors != [] {
        RaiseFailures(lineNumber, errors);
        return None;
      }
      return Some(transaction);
    }

    /** Raises one notification per failed check, in order. */
    method RaiseFailures(lineNumber: nat, errors: seq<RuleCheck>)
      modifies bus
      ensures bus.notifications == old(bus.notifications) + FailureNotes(lineNumber, errors)
    {
      for k := 0 to |errors|
        invariant bus.notifications == old(bus.notifications) + FailureNotes(lineNumber, errors[..k])
      {
        bus.Handle(Notification(LineKey(lineNumber) + ": " + errors[k].PropertyName(),
                                errors[k].Message()));
        assert errors[..k + 1][..k] == errors[..k];
      }
      assert errors[..|errors|] == errors;
    }
  }
}
