# FinanceTest batch-file pipeline, modelled in Dafny

This project models the part of the FinanceTest backend that imports a
fixed-width batch ("CNAB") file and reports balances per store.

- **`CnabParser.Parse`** reads the file line by line. It skips blank lines and
  lines shorter than 80 characters. From every other line it cuts eight
  positional fields and parses the type and the amount. It merges the date
  and time fields, or falls back to the current UTC time. Then it builds a
  `Transaction`, validates it and raises domain notifications. One
  notification goes out per failed check, or a single "Invalid data format in
  line." when the type or the amount does not parse. The batch is never
  aborted.
- **`Transaction`** trims the owner and store names when it is built.
  `GetSignedValue` negates the amount of boleto, financing and rent
  transactions.
- **`TransactionValidator`** has six rules (type, value, CPF, card, owner and
  store name) with eleven checks. Under FluentValidation's default cascade
  mode every failing check is reported.
- **`TransactionService.ProcessFileAsync`** stores the parsed transactions in
  a single save, and only when there are any.
- **`TransactionService.GetStoreBalancesAsync`** groups the stored
  transactions by exact store name. It projects each one to an `OperationDto`
  with its signed value and sums those values into `TotalBalance`.
- **`DomainNotificationHandler`** is the append-only list of (key, value)
  notifications, which can be emptied.

## Modelling choices

- `Transaction.Value` is an unconstrained `decimal` in the source. The only
  producer of transactions modelled here is the parser, and its amounts are
  `decimal.Parse(field) / 100m` of an integer field: exactly that integer in
  cents. So amounts are integer cents.
- Strings are `seq<char>`. `char.IsWhiteSpace`, `Trim`, `TrimEnd`, `int.Parse`
  and the integer subset of `decimal.Parse` are written out in `text.dfy`.
- `DateTime.TryParseExact` with "yyyyMMddHHmmss" and the invariant culture is
  written out in `timestamps.dfy`. It accepts exactly fourteen ASCII digits
  naming a Gregorian date in years 1..9999 and a time to the second.
  `DateTime.UtcNow` is the parameter `now`, one instant for the whole batch.
- The file stream is given as its sequence of lines.
- The MediatR bus delivers each notification to the handler, so the parser
  appends to the handler's list directly.
- `Transaction` is immutable after construction, so it is a `datatype`. Its
  type is kept as the integer code it was built from: the enum cast does not
  range-check.
- The parser, the notification handler, the repository and the service change
  state, so they are classes.
  - `CnabParser.Parse` is a `while` loop, proved against the specification
    function `ParseLines`.
  - The report is the specification function `StoreBalances`, with its
    properties proved as lemmas.
- `RecordLayout` writes a transaction out as a record line. The parser itself
  never does this. The encoder is there as the partner against which the
  parser's decoding is stated as a round trip.

## Model

| member | source | states |
|---|---|---|
| Text.TrimEnd | FinanceTest/FinanceTestBackend/src/FinanceTest.Infrastructure/Parsers/CnabParser.cs:60 | the store field keeps the longest prefix that does not end in white space; what is cut off is all white space |
| Text.Trim | FinanceTest/FinanceTestBackend/src/FinanceTest.Domain/Entities/Transactions/Transaction.cs:30-31 | the trimmed name has no white space at either end and is no longer than the input |
| Text.TrimIsSlice | FinanceTest/FinanceTestBackend/src/FinanceTest.Domain/Entities/Transactions/Transaction.cs:30-31 | trimming keeps one contiguous piece of the name and removes only white space on either side |
| Text.TrimOfTrimmed | FinanceTest/FinanceTestBackend/src/FinanceTest.Domain/Entities/Transactions/Transaction.cs:30-31 | a name with no surrounding white space is left exactly as it is |
| Text.TrimIdempotent | FinanceTest/FinanceTestBackend/src/FinanceTest.Domain/Entities/Transactions/Transaction.cs:30-31 | trimming twice is trimming once |
| Text.TrimAfterTrimEnd | FinanceTest/FinanceTestBackend/src/FinanceTest.Infrastructure/Parsers/CnabParser.cs:60 | the parser's `TrimEnd` of the store field followed by the constructor's `Trim` equals a single `Trim` |
| Text.TrimBlank | FinanceTest/FinanceTestBackend/src/FinanceTest.Domain/Entities/Transactions/Transaction.cs:30-31 | a name of only white space trims to the empty string |
| Text.TrimmedNotBlank | FinanceTest/FinanceTestBackend/src/FinanceTest.Domain/Entities/Transactions/TransactionValidator.cs:26-32 | for a trimmed name, `NotEmpty` holds exactly when the name is non-empty |
| Text.TrimEndOfPadded | FinanceTest/FinanceTestBackend/src/FinanceTest.Infrastructure/Parsers/CnabParser.cs:60 | right-trimming a space-padded field gives back its text when that text does not end in white space |
| Text.TrimOfPadded | FinanceTest/FinanceTestBackend/src/FinanceTest.Domain/Entities/Transactions/Transaction.cs:30 | trimming a space-padded owner field gives back a trimmed owner name |
| Text.ParseOneChar | FinanceTest/FinanceTestBackend/src/FinanceTest.Infrastructure/Parsers/CnabParser.cs:37 | `int.Parse` of the one-character type field succeeds exactly for a digit, and yields that digit's value |
| Text.ParseDigits | FinanceTest/FinanceTestBackend/src/FinanceTest.Infrastructure/Parsers/CnabParser.cs:63 | a non-empty field of digits parses to the number it denotes |
| Text.NatToString | FinanceTest/FinanceTestBackend/src/FinanceTest.Infrastructure/Parsers/CnabParser.cs:80 | the rendering of the line number is non-empty digits, denotes the number, and has no leading zero |
| Text.NatToStringInjective | FinanceTest/FinanceTestBackend/src/FinanceTest.Infrastructure/Parsers/CnabParser.cs:80 | distinct line numbers are rendered differently |
| Text.ParseNatToString | FinanceTest/FinanceTestBackend/src/FinanceTest.Infrastructure/Parsers/CnabParser.cs:37 | the integer parser reads back a rendered number, with or without a minus sign |
| Timestamps.DaysInMonth | FinanceTest/FinanceTestBackend/src/FinanceTest.Infrastructure/Parsers/CnabParser.cs:66-67 | months have 28 to 31 days, and 29 exactly for February of a leap year |
| Timestamps.ParseExact | FinanceTest/FinanceTestBackend/src/FinanceTest.Infrastructure/Parsers/CnabParser.cs:66-67 | a successful parse of "yyyyMMddHHmmss" yields a representable date and time |
| Timestamps.ParseFormat | FinanceTest/FinanceTestBackend/src/FinanceTest.Infrastructure/Parsers/CnabParser.cs:66-67 | parsing the fourteen-digit rendering of a valid timestamp gives it back |
| Timestamps.FormatParse | FinanceTest/FinanceTestBackend/src/FinanceTest.Infrastructure/Parsers/CnabParser.cs:66-67 | every text that parses is the rendering of its result, so parse and format are inverse bijections |
| Timestamps.ParseExactRejects | FinanceTest/FinanceTestBackend/src/FinanceTest.Infrastructure/Parsers/CnabParser.cs:66-71 | a text of the wrong length, with a non-digit, or with a month outside 1..12 does not parse, so the date falls back to now |
| Transactions.TransactionType.Code | FinanceTest/FinanceTestBackend/src/FinanceTest.Domain/Enums/TransactionType.cs:3-14 | each of the nine kinds has a code between 1 and 9 |
| Transactions.TypeCodes | FinanceTest/FinanceTestBackend/src/FinanceTest.Domain/Enums/TransactionType.cs:3-14 | codes and kinds correspond one to one, and exactly the codes 1..9 are defined |
| Transactions.NewTransaction | FinanceTest/FinanceTestBackend/src/FinanceTest.Domain/Entities/Transactions/Transaction.cs:21-32 | the constructor keeps type code, date, value, CPF and card unchanged, with no range check on the code, and stores both names trimmed |
| Transactions.NewTransactionKeepsTrimmed | FinanceTest/FinanceTestBackend/src/FinanceTest.Domain/Entities/Transactions/Transaction.cs:21-32 | building from already trimmed names leaves them unchanged, so rebuilding a transaction from its fields gives it back |
| Transactions.SignedValueSign | FinanceTest/FinanceTestBackend/src/FinanceTest.Domain/Entities/Transactions/Transaction.cs:34-43 | the signed value has the amount's magnitude; it is negated exactly for Boleto, Financing and Rent; an undefined code such as 0 keeps the amount |
| Validation.ValidateIsEmptyIffValid | FinanceTest/FinanceTestBackend/src/FinanceTest.Domain/Entities/Transactions/TransactionValidator.cs:9-32 | validation reports no error exactly when the type is 1..9, the value is positive, the CPF is 11 digits (the corrected digits-only rule; see Findings), the card is 12 characters and not blank, the owner is not blank and at most 14 characters, and the store name is not blank and at most 19 characters |
| Validation.ValidateReportsEachCheck | FinanceTest/FinanceTestBackend/src/FinanceTest.Domain/Entities/Transactions/TransactionValidator.cs:9-32 | every check is reported exactly when it fails, and none is reported twice |
| Validation.CpfPatternAcceptsTrailingLineFeed | FinanceTest/FinanceTestBackend/src/FinanceTest.Domain/Entities/Transactions/TransactionValidator.cs:20 | the pattern as written accepts an eleven-character CPF ending in a line feed, which is not only digits |
| Validation.CpfPatternAgreesWithoutLineFeed | FinanceTest/FinanceTestBackend/src/FinanceTest.Domain/Entities/Transactions/TransactionValidator.cs:20 | on text without a line feed, such as a field cut from a line, the pattern as written and the digits-only rule agree |
| Validation.ValidCpfIsElevenDigits | FinanceTest/FinanceTestBackend/src/FinanceTest.Domain/Entities/Transactions/TransactionValidator.cs:17-20 | a transaction that passes validation has a CPF of exactly eleven ASCII digits |
| Notifications.NotificationHandler.constructor | FinanceTest/FinanceTestBackend/src/FinanceTest.Domain/Notifications/Handlers/DomainNotificationHandler.cs:12-16 | a new handler holds no notifications |
| Notifications.NotificationHandler.Handle | FinanceTest/FinanceTestBackend/src/FinanceTest.Domain/Notifications/Handlers/DomainNotificationHandler.cs:18-24 | the message is appended after all earlier ones, which stay unchanged; there is no precondition, so no message is rejected |
| Notifications.NotificationHandler.GetNotifications | FinanceTest/FinanceTestBackend/src/FinanceTest.Domain/Notifications/Handlers/DomainNotificationHandler.cs:26-29 | returns the list as it stands and changes nothing |
| Notifications.NotificationHandler.HasNotifications | FinanceTest/FinanceTestBackend/src/FinanceTest.Domain/Notifications/Handlers/DomainNotificationHandler.cs:31-34 | true exactly when the list is non-empty |
| Notifications.NotificationHandler.Dispose | FinanceTest/FinanceTestBackend/src/FinanceTest.Domain/Notifications/Handlers/DomainNotificationHandler.cs:36-39 | the list is empty afterwards |
| Notifications.HandlerLifecycle | FinanceTest/FinanceTestBackend/src/FinanceTest.Domain/Notifications/Handlers/DomainNotificationHandler.cs:12-39 | a fresh handler that handled some messages holds exactly those, in order; it has notifications exactly when there was at least one; after `Dispose` it has none |
| Parsing.SliceFields | FinanceTest/FinanceTestBackend/src/FinanceTest.Infrastructure/Parsers/CnabParser.cs:40-60 | on any line of at least 80 characters the slices are in bounds and have widths 1, 8, 10, 11, 12, 6 and 14; together they are the first 62 characters; the store is the rest of the line, right-trimmed |
| Parsing.SliceFieldsOfLayout | FinanceTest/FinanceTestBackend/src/FinanceTest.Infrastructure/Parsers/CnabParser.cs:40-60 | fields of the right widths laid side by side are cut back into the same fields |
| Parsing.SkippedLineIsSilent | FinanceTest/FinanceTestBackend/src/FinanceTest.Infrastructure/Parsers/CnabParser.cs:32 | a blank line or one shorter than 80 characters yields no transaction and no notification |
| Parsing.DecodeRecordSucceeds | FinanceTest/FinanceTestBackend/src/FinanceTest.Infrastructure/Parsers/CnabParser.cs:37-63 | a record gets past the two parses exactly when its type character is a digit and its amount field is integer text |
| Parsing.DecodeRecordType | FinanceTest/FinanceTestBackend/src/FinanceTest.Infrastructure/Parsers/CnabParser.cs:37 | the type code of a decoded record is the value of its first character |
| Parsing.DecodeRecordAmount | FinanceTest/FinanceTestBackend/src/FinanceTest.Infrastructure/Parsers/CnabParser.cs:63 | the amount in cents is the integer value of characters 9..19; for a field of digits it is the number the digits denote |
| Parsing.DecodeRecordText | FinanceTest/FinanceTestBackend/src/FinanceTest.Infrastructure/Parsers/CnabParser.cs:46-60 | CPF and card are characters 19..30 and 30..42 verbatim; owner and store are characters 48..62 and 62..end, trimmed |
| Parsing.DecodeRecordDate | FinanceTest/FinanceTestBackend/src/FinanceTest.Infrastructure/Parsers/CnabParser.cs:66-71 | the date is the instant named by the date and time fields together, or `now` when they name none |
| Parsing.ProcessLineCases | FinanceTest/FinanceTestBackend/src/FinanceTest.Infrastructure/Parsers/CnabParser.cs:32-91 | a line is skipped exactly when blank or short; a record is malformed exactly when it does not decode; it is accepted unchanged exactly when the transaction is valid, and otherwise rejected with the validator's errors |
| Parsing.NonDigitTypeIsMalformed | FinanceTest/FinanceTestBackend/src/FinanceTest.Infrastructure/Parsers/CnabParser.cs:87-91 | a record whose type character is not a digit (such as '-') yields one notification, ("Line N", "Invalid data format in line."), and no transaction; it never reaches the validator |
| Parsing.AcceptedIsValid | FinanceTest/FinanceTestBackend/src/FinanceTest.Infrastructure/Parsers/CnabParser.cs:73-85 | every accepted transaction is valid, has a defined type and has trimmed names |
| Parsing.RejectedNeverForWidth | FinanceTest/FinanceTestBackend/src/FinanceTest.Infrastructure/Parsers/CnabParser.cs:46-55 | the CPF length, card length and owner length checks never fail on a parsed line |
| Parsing.RejectedTypeOnlyForZero | FinanceTest/FinanceTestBackend/src/FinanceTest.Infrastructure/Parsers/CnabParser.cs:37 | the type check fails on a parsed line exactly when its type character is '0' |
| Parsing.OutcomeIgnoresNow | FinanceTest/FinanceTestBackend/src/FinanceTest.Infrastructure/Parsers/CnabParser.cs:66-71 | the fallback instant never changes whether a line is accepted or what it reports; an unparsable date still lets the record be accepted |
| Parsing.FailureNotes | FinanceTest/FinanceTestBackend/src/FinanceTest.Infrastructure/Parsers/CnabParser.cs:78-81 | one notification per failed check, in order, each keyed by the line and the property name |
| Parsing.LineNotesOfLine | FinanceTest/FinanceTestBackend/src/FinanceTest.Infrastructure/Parsers/CnabParser.cs:76-90 | a malformed line raises exactly ("Line N", "Invalid data format in line."); a rejected line raises ("Line N: Property", message) for each failure in order; skipped and accepted lines raise nothing |
| Parsing.LineIsSilent | FinanceTest/FinanceTestBackend/src/FinanceTest.Infrastructure/Parsers/CnabParser.cs:76-91 | a line raises nothing exactly when it is skipped or accepted: a rejected line always reports at least one failure, and a malformed one its format error |
| Parsing.LineKeyInjective | FinanceTest/FinanceTestBackend/src/FinanceTest.Infrastructure/Parsers/CnabParser.cs:80 | notification keys of different lines are different |
| Parsing.ParseLinesStep | FinanceTest/FinanceTestBackend/src/FinanceTest.Infrastructure/Parsers/CnabParser.cs:27-32 | the i-th line (0-based) is reported as line i + 1, whether or not earlier lines were skipped |
| Parsing.ParseLinesAccepted | FinanceTest/FinanceTestBackend/src/FinanceTest.Infrastructure/Parsers/CnabParser.cs:85 | the result has no more transactions than lines, each valid and with trimmed names |
| Parsing.ParseLinesSilent | FinanceTest/FinanceTestBackend/src/FinanceTest.Infrastructure/Parsers/CnabParser.cs:27-92 | the batch raises nothing exactly when every line is skipped or accepted |
| Parsing.ParseLinesPrefix | FinanceTest/FinanceTestBackend/src/FinanceTest.Infrastructure/Parsers/CnabParser.cs:27-92 | later lines never take back what earlier ones produced: both outputs for a prefix of the file are prefixes of the outputs for the file |
| Parsing.ParseLinesSkipsBlank | FinanceTest/FinanceTestBackend/src/FinanceTest.Infrastructure/Parsers/CnabParser.cs:32 | appending a blank or short line changes neither output |
| Parsing.CnabParser.constructor | FinanceTest/FinanceTestBackend/src/FinanceTest.Infrastructure/Parsers/CnabParser.cs:15-19 | the parser raises its notifications on the given handler |
| Parsing.CnabParser.Parse | FinanceTest/FinanceTestBackend/src/FinanceTest.Infrastructure/Parsers/CnabParser.cs:21-95 | returns exactly the accepted transactions in file order, and appends exactly the batch's notifications, line by line, to the handler |
| Parsing.CnabParser.ReadRecord | FinanceTest/FinanceTestBackend/src/FinanceTest.Infrastructure/Parsers/CnabParser.cs:34-91 | for one record line, returns the transaction if the line is accepted, and raises exactly that line's notifications |
| Parsing.CnabParser.ValidateRecord | FinanceTest/FinanceTestBackend/src/FinanceTest.Infrastructure/Parsers/CnabParser.cs:74-85 | returns a valid transaction, or raises its failures and returns nothing |
| Parsing.CnabParser.RaiseFailures | FinanceTest/FinanceTestBackend/src/FinanceTest.Infrastructure/Parsers/CnabParser.cs:76-83 | appends one notification per error, in order |
| RecordLayout.FieldsOf | FinanceTest/FinanceTestBackend/src/FinanceTest.Infrastructure/Parsers/CnabParser.cs:36-60 | a transaction that fits is written as fields of widths 1, 8, 10, 11, 12, 6, 14 and 19 |
| RecordLayout.Encode | FinanceTest/FinanceTestBackend/src/FinanceTest.Infrastructure/Parsers/CnabParser.cs:36-60 | the record line of a transaction has 81 characters |
| RecordLayout.SliceEncode | FinanceTest/FinanceTestBackend/src/FinanceTest.Infrastructure/Parsers/CnabParser.cs:40-60 | slicing the written line gives back the written fields, with the store's padding removed |
| RecordLayout.EncodeIsRecord | FinanceTest/FinanceTestBackend/src/FinanceTest.Infrastructure/Parsers/CnabParser.cs:32 | a written line is never skipped |
| RecordLayout.ParseEncodedNumbers | FinanceTest/FinanceTestBackend/src/FinanceTest.Infrastructure/Parsers/CnabParser.cs:37-63 | the written type and amount fields parse back to the type and the amount in cents |
| RecordLayout.DecodeEncode | FinanceTest/FinanceTestBackend/src/FinanceTest.Infrastructure/Parsers/CnabParser.cs:36-73 | decoding the line written for a transaction with trimmed names gives the transaction back, whatever `now` is |
| RecordLayout.DecodeEncodeDate | FinanceTest/FinanceTestBackend/src/FinanceTest.Infrastructure/Parsers/CnabParser.cs:66-71 | the written date and time fields parse back to the transaction's instant |
| RecordLayout.DecodeEncodeNames | FinanceTest/FinanceTestBackend/src/FinanceTest.Infrastructure/Parsers/CnabParser.cs:73 | the constructor applied to the written fields rebuilds the transaction |
| RecordLayout.EncodedValidIsAccepted | FinanceTest/FinanceTestBackend/src/FinanceTest.Infrastructure/Parsers/CnabParser.cs:73-85 | every valid transaction that fits the layout is accepted, unchanged, from the line written for it |
| Services.Operations | FinanceTest/FinanceTestBackend/src/FinanceTest.Application/Services/TransactionService.cs:36-43 | one operation per group member, in order, each copying type, date, value, CPF and card and carrying the signed value |
| Services.InStore | FinanceTest/FinanceTestBackend/src/FinanceTest.Application/Services/TransactionService.cs:32 | a group holds exactly the transactions whose store name equals the key exactly |
| Services.StoreNames | FinanceTest/FinanceTestBackend/src/FinanceTest.Application/Services/TransactionService.cs:32 | the group keys are distinct, include the store of every transaction, and each has a non-empty group |
| Services.StoreNamesSnoc | FinanceTest/FinanceTestBackend/src/FinanceTest.Application/Services/TransactionService.cs:32 | groups appear in order of first occurrence: a new store goes last |
| Services.AbsentStoreHasNoGroup | FinanceTest/FinanceTestBackend/src/FinanceTest.Application/Services/TransactionService.cs:32 | a store that is not a key has no transactions |
| Services.BalancesFor | FinanceTest/FinanceTestBackend/src/FinanceTest.Application/Services/TransactionService.cs:33-45 | one balance per key, in key order, holding that store's group projected and summed |
| Services.SumOperationsOf | FinanceTest/FinanceTestBackend/src/FinanceTest.Application/Services/TransactionService.cs:44 | the sum of the signed values of the projected operations is the sum of the signed values of the group |
| Services.StoreBalancesLines | FinanceTest/FinanceTestBackend/src/FinanceTest.Application/Services/TransactionService.cs:29-46 | one line per distinct store name and one for every store; each line's operations are exactly that store's transactions in order, and its total is the sum of their signed values |
| Services.StoreBalancesEmpty | FinanceTest/FinanceTestBackend/src/FinanceTest.Application/Services/TransactionService.cs:29-48 | the report is empty exactly when there are no transactions |
| Services.StoreBalancesPartition | FinanceTest/FinanceTestBackend/src/FinanceTest.Application/Services/TransactionService.cs:31-46 | the groups partition the input: the operations number as many as the transactions, and the totals add up to the signed sum of all of them |
| Services.TransactionRepository.AddRange | FinanceTest/FinanceTestBackend/src/FinanceTest.Infrastructure/Repositories/TransactionRepository.cs:18-22 | the batch is appended to what is stored, with one save |
| Services.TransactionRepository.GetAll | FinanceTest/FinanceTestBackend/src/FinanceTest.Infrastructure/Repositories/TransactionRepository.cs:24-31 | returns what is stored |
| Services.TransactionService.constructor | FinanceTest/FinanceTestBackend/src/FinanceTest.Application/Services/TransactionService.cs:13-17 | the service uses the given repository and parser |
| Services.TransactionService.ProcessFile | FinanceTest/FinanceTestBackend/src/FinanceTest.Application/Services/TransactionService.cs:19-25 | the parsed transactions are stored in exactly one save when there are any, and nothing is saved otherwise; the parser's notifications are raised either way |
| Services.TransactionService.GetStoreBalances | FinanceTest/FinanceTestBackend/src/FinanceTest.Application/Services/TransactionService.cs:27-49 | the report over everything stored; its operations number as many as the stored transactions, and its totals add up to their signed sum |

## Left out

- The transaction's `Guid` identifier is not modelled. It is random, and nothing in the pipeline reads it.
- Logging (`ILogger`) is left out. It has no effect on the results.
- The MediatR bus is replaced by a direct append to the handler. `RaiseEvent` is not awaited in the source; the model treats each notification as delivered before the next line is read.
- Async execution, Entity Framework and the database are replaced by a repository holding a sequence.
- Services.TransactionRepository.GetAll: returns the stored transactions in insertion order. The ordering by store name and then date that the database query applies is not modelled, so the order of report lines and of operations within a line follows that sequence.
- The repository's `GetByStoreAsync` is not modelled. No part of the pipeline calls it.
- `StreamReader` decoding and line splitting are left out. The file is given as its sequence of lines, so no line contains a line feed.
- Parsing.CnabParser.Parse: one instant `now` stands for every fallback date in a batch. The source reads `DateTime.UtcNow` afresh for each line whose date does not parse, so two such lines can get different fallback dates there. `Parsing.OutcomeIgnoresNow` shows that the choice affects only those dates, never acceptance or the notifications.
- Parsing.DecodeRecordAmount: only integer text (`[ws][+|-]digits[ws]`) is modelled as a successful `decimal.Parse`. A field with a decimal point, group separators, a trailing sign or culture-specific symbols is treated as a parse failure (a malformed line). So are trailing NUL characters, which the .NET number parser ignores. The source would accept some of these.
- Validation.ValidateIsEmptyIffValid: `Validation.Validate` uses the corrected digits-only CPF rule, not the pattern as written. A CPF of ten digits followed by a final line feed passes the source's validator but fails the model's (see Findings). The parser never produces that input: read lines contain no line feed, and on text without one the two rules agree (`Validation.CpfPatternAgreesWithoutLineFeed`).
- Notifications.NotificationHandler.GetNotifications: returns the current contents as a value. The source returns the live list, so a caller holding it sees later `Handle` calls, but not the new list that `Dispose` puts in its place. That aliasing is not modelled.
- Validation.ValidCpfIsElevenDigits: the CPF digit check uses ASCII digits. `\d` in .NET also matches other Unicode decimal digits.
- Strings are sequences of code points. Characters outside the Basic Multilingual Plane count as one character here but as two UTF-16 units in the source's length checks and slices.
- The HTTP controller, the notification filter, dependency injection and the frontend are not part of this model.

## Findings

| source | as written | input that shows it | evidently intended | confidence | as-written member | corrected member |
|---|---|---|---|---|---|---|
| FinanceTest/FinanceTestBackend/src/FinanceTest.Domain/Entities/Transactions/TransactionValidator.cs:20 | `Matches(@"^\d+$")` without the multiline option: `$` also matches just before a final line feed, so a CPF of ten digits followed by '\n' passes both the length check and the digits check | CPF "1234567890\n" (11 characters) | the message "CPF must contain only numbers." asks for digits and nothing else (a pattern such as `^\d+\z`) | not executed; medium (the .NET `$` rule is standard, but the parser never produces a field with a line feed, since `ReadLine` strips line ends) | Validation.CpfPatternAcceptsTrailingLineFeed (over Validation.MatchesDigitsPatternAsWritten) | Validation.ValidCpfIsElevenDigits (over Validation.IsDigitsOnly, which Validation.Validate uses) |
