/**
 * The .NET string and number primitives the batch-file pipeline relies on:
 * `char.IsWhiteSpace`, `string.IsNullOrWhiteSpace`, `Trim`, `TrimEnd`,
 * the integer part of `int.Parse` / `decimal.Parse`, and the decimal
 * rendering of a line number inside a notification key.
 */
module Text {
  import opened Wrappers

  /** `char.IsWhiteSpace`: the Latin-1 white space characters plus the Unicode
      space, line and paragraph separators. */
  predicate IsWhiteSpace(c: char) {
    || c == ' '
    || ('\t' <= c <= '\r')
    || c == '\U{0085}'
    || c == '\U{00A0}'
    || c == '\U{1680}'
    || ('\U{2000}' <= c <= '\U{200A}')
    || c == '\U{2028}'
    || c == '\U{2029}'
    || c == '\U{202F}'
    || c == '\U{205F}'
    || c == '\U{3000}'
  }

  /** `string.IsNullOrWhiteSpace` for a non-null string: empty or only white space. */
  predicate IsBlank(s: string) {
    forall i :: 0 <= i < |s| ==> IsWhiteSpace(s[i])
  }

  /** A string with no white space at either end, as `Trim` leaves it. */
  predicate IsTrimmed(s: string) {
    s == [] || (!IsWhiteSpace(s[0]) && !IsWhiteSpace(s[|s| - 1]))
  }

  /** `TrimEnd()`: the longest prefix of `s` that does not end in white space. */
  function TrimEnd(s: string): (r: string)
    ensures |r| <= |s| && r == s[..|r|]
    ensures IsBlank(s[|r|..])
    ensures r == [] || !IsWhiteSpace(r[|r| - 1])
  {
    if s != [] && IsWhiteSpace(s[|s| - 1]) then
      var r := TrimEnd(s[..|s| - 1]);
      assert s[|r|..] == s[..|s| - 1][|r|..] + [s[|s| - 1]];
      r
    else s
  }

  /** `Trim()`: `s` with the white space at both ends removed, end first. */
  function Trim(s: string): (r: string)
    ensures IsTrimmed(r) && |r| <= |s|
  {
    if s != [] && IsWhiteSpace(s[|s| - 1]) then Trim(s[..|s| - 1])
    else if s != [] && IsWhiteSpace(s[0]) then Trim(s[1..])
    else s
  }

  /** What `Trim` removes is only white space, and what it keeps is a
      contiguous piece of `s`. */
  lemma TrimIsSlice(s: string)
    ensures exists k :: 0 <= k && k + |Trim(s)| <= |s| && Trim(s) == s[k..k + |Trim(s)|]
                        && IsBlank(s[..k]) && IsBlank(s[k + |Trim(s)|..])
  {
    var k := TrimOffset(s);
  }

  /** Where the kept piece starts. */
  lemma {:induction false} TrimOffset(s: string) returns (k: nat)
    ensures k + |Trim(s)| <= |s| && Trim(s) == s[k..k + |Trim(s)|]
    ensures IsBlank(s[..k]) && IsBlank(s[k + |Trim(s)|..])
  {
    if s != [] && IsWhiteSpace(s[|s| - 1]) {
      var p := s[..|s| - 1];
      assert Trim(s) == Trim(p);
      k := TrimOffset(p);
      SliceWithoutLast(s, Trim(p), k);
    } else if s != [] && IsWhiteSpace(s[0]) {
      var p := s[1..];
      assert Trim(s) == Trim(p);
      var j := TrimOffset(p);
      SliceWithoutFirst(s, Trim(p), j);
      k := j + 1;
    } else {
      k := 0;
    }
  }

  /** A piece of `s` with white space on both sides, found in `s` without its
      white last character, is such a piece of `s` as well. */
  lemma SliceWithoutLast(s: string, r: string, k: nat)
    requires s != [] && IsWhiteSpace(s[|s| - 1])
    requires k + |r| <= |s| - 1 && r == s[..|s| - 1][k..k + |r|]
    requires IsBlank(s[..|s| - 1][..k]) && IsBlank(s[..|s| - 1][k + |r|..])
    ensures k + |r| <= |s| && r == s[k..k + |r|]
    ensures IsBlank(s[..k]) && IsBlank(s[k + |r|..])
  {
    var p := s[..|s| - 1];
    SliceOfPrefix(s, |s| - 1, k, k + |r|);
    SliceOfPrefix(s, |s| - 1, 0, k);
    assert s[k + |r|..] == p[k + |r|..] + [s[|s| - 1]];
  }

  /** The same, for `s` without its white first character. */
  lemma SliceWithoutFirst(s: string, r: string, j: nat)
    requires s != [] && IsWhiteSpace(s[0])
    requires j + |r| <= |s| - 1 && r == s[1..][j..j + |r|]
    requires IsBlank(s[1..][..j]) && IsBlank(s[1..][j + |r|..])
    ensures j + 1 + |r| <= |s| && r == s[j + 1..j + 1 + |r|]
    ensures IsBlank(s[..j + 1]) && IsBlank(s[j + 1 + |r|..])
  {
    var p := s[1..];
    SliceOfSuffix(s, 1, j, j + |r|);
    SliceOfSuffix(s, 1, j + |r|, |p|);
    assert s[..j + 1] == [s[0]] + p[..j];
  }

  lemma SliceOfPrefix(s: string, m: nat, a: nat, b: nat)
    requires a <= b <= m <= |s|
    ensures s[..m][a..b] == s[a..b]
  {
  }

  lemma SliceOfSuffix(s: string, m: nat, a: nat, b: nat)
    requires m <= |s| && a <= b <= |s| - m
    ensures s[m..][a..b] == s[m + a..m + b]
  {
  }

  /** Trimming is idempotent, and a string without surrounding white space is
      left exactly as it is. */
  lemma TrimOfTrimmed(s: string)
    requires IsTrimmed(s)
    ensures Trim(s) == s
  {
  }

  lemma TrimIdempotent(s: string)
    ensures Trim(Trim(s)) == Trim(s)
  {
    TrimOfTrimmed(Trim(s));
  }

  /** Trimming the end first (as the parser does with the store field) does not
      change what the full trim produces. */
  lemma {:induction false} TrimAfterTrimEnd(s: string)
    ensures Trim(TrimEnd(s)) == Trim(s)
  {
    if s != [] && IsWhiteSpace(s[|s| - 1]) {
      TrimAfterTrimEnd(s[..|s| - 1]);
    }
  }

  /** `n` spaces, the padding of a fixed-width text field. */
  function Spaces(n: nat): (r: string)
    ensures |r| == n && IsBlank(r)
  {
    if n == 0 then [] else Spaces(n - 1) + " "
  }

  /** A fixed-width field is its text followed by padding: trimming the end
      of a padded text gives the text back when it does not itself end in
      white space. */
  lemma {:induction false} TrimEndOfPadded(s: string, pad: string)
    requires s == [] || !IsWhiteSpace(s[|s| - 1])
    requires IsBlank(pad)
    ensures TrimEnd(s + pad) == s
  {
    if pad != [] {
      var p := pad[..|pad| - 1];
      assert (s + pad)[..|s + pad| - 1] == s + p;
      TrimEndOfPadded(s, p);
    } else {
      assert s + pad == s;
    }
  }

  /** Trimming a padded field gives its text back when the text is trimmed. */
  lemma {:induction false} TrimOfPadded(s: string, pad: string)
    requires IsTrimmed(s) && IsBlank(pad)
    ensures Trim(s + pad) == s
  {
    if pad != [] {
      var p := pad[..|pad| - 1];
      assert (s + pad)[..|s + pad| - 1] == s + p;
      TrimOfPadded(s, p);
    } else {
      assert s + pad == s;
      TrimOfTrimmed(s);
    }
  }

  /** A non-empty trimmed string is not blank: `NotEmpty` on a trimmed name is
      the same as the name being non-empty. */
  lemma TrimmedNotBlank(s: string)
    requires IsTrimmed(s) && s != []
    ensures !IsBlank(s)
  {
    assert !IsWhiteSpace(s[0]);
  }

  /** Trimming a blank string leaves nothing. */
  lemma {:induction false} TrimBlank(s: string)
    requires IsBlank(s)
    ensures Trim(s) == []
  {
    if s != [] {
      TrimBlank(s[..|s| - 1]);
    }
  }

  // ---------------------------------------------------------------------
  // Decimal digits
  // ---------------------------------------------------------------------

  /** An ASCII decimal digit, the only digits .NET number parsing accepts. */
  predicate IsDigit(c: char) {
    '0' <= c <= '9'
  }

  predicate AllDigits(s: string) {
    forall i :: 0 <= i < |s| ==> IsDigit(s[i])
  }

  function DigitValue(c: char): (d: nat)
    requires IsDigit(c)
    ensures d < 10
  {
    (c as int - '0' as int) as nat
  }

  function DigitChar(d: nat): (c: char)
    requires d < 10
    ensures IsDigit(c) && DigitValue(c) == d
  {
    (d + '0' as int) as char
  }

  function Pow10(n: nat): (p: nat)
    ensures p >= 1
  {
    if n == 0 then 1 else 10 * Pow10(n - 1)
  }

  /** The number a string of decimal digits denotes, most significant first. */
  function DigitsValue(s: string): (v: nat)
    requires AllDigits(s)
    ensures v < Pow10(|s|)
  {
    if s == [] then 0 else 10 * DigitsValue(s[..|s| - 1]) + DigitValue(s[|s| - 1])
  }

  /** `n` written with exactly `w` digits, zero padded on the left (the
      fixed-width numeric fields of the batch layout). */
  function Pad(n: nat, w: nat): (r: string)
    requires n < Pow10(w)
    ensures |r| == w && AllDigits(r)
    ensures DigitsValue(r) == n
  {
    if w == 0 then [] else
      var r := Pad(n / 10, w - 1) + [DigitChar(n % 10)];
      assert r[..w - 1] == Pad(n / 10, w - 1);
      r
  }

  /** A digit string is the padded rendering of its own value. */
  lemma {:induction false} PadOfDigitsValue(s: string)
    requires AllDigits(s)
    ensures Pad(DigitsValue(s), |s|) == s
  {
    if s != [] {
      var p := s[..|s| - 1];
      var c := s[|s| - 1];
      PadOfDigitsValue(p);
      assert DigitsValue(s) == 10 * DigitsValue(p) + DigitValue(c);
      PadSnoc(DigitsValue(p), DigitValue(c), |p|);
      assert DigitChar(DigitValue(c)) == c;
      assert s == p + [c];
    }
  }

  /** Padding a number with one more digit appended appends that digit. */
  lemma PadSnoc(a: nat, d: nat, w: nat)
    requires a < Pow10(w) && d < 10
    ensures 10 * a + d < Pow10(w + 1)
    ensures Pad(10 * a + d, w + 1) == Pad(a, w) + [DigitChar(d)]
  {
    LastDigit(a, d);
  }

  /** Appending digit `d` to the number `a` and taking it off again. */
  lemma LastDigit(a: nat, d: nat)
    requires d < 10
    ensures (10 * a + d) / 10 == a && (10 * a + d) % 10 == d
  {
  }

  /** `n.ToString()` for a non-negative `n`: its shortest decimal rendering. */
  function NatToString(n: nat): (r: string)
    ensures |r| >= 1 && AllDigits(r)
    ensures DigitsValue(r) == n
    ensures r[0] == '0' ==> r == "0"
  {
    if n < 10 then [DigitChar(n)] else
      var r := NatToString(n / 10) + [DigitChar(n % 10)];
      assert r[..|r| - 1] == NatToString(n / 10);
      r
  }

  /** The decimal rendering determines the number: distinct line numbers give
      distinct notification keys. */
  lemma NatToStringInjective(m: nat, n: nat)
    requires NatToString(m) == NatToString(n)
    ensures m == n
  {
    assert DigitsValue(NatToString(m)) == m;
  }

  // ---------------------------------------------------------------------
  // int.Parse / decimal.Parse, restricted to integer text
  // ---------------------------------------------------------------------

  /** White space as .NET number parsing understands it: space and tab to
      carriage return (narrower than `char.IsWhiteSpace`). */
  predicate IsNumberWhite(c: char) {
    c == ' ' || ('\t' <= c <= '\r')
  }

  function StripNumberWhite(s: string): (r: string)
    ensures |r| <= |s|
    ensures r == [] || (!IsNumberWhite(r[0]) && !IsNumberWhite(r[|r| - 1]))
    ensures (forall i :: 0 <= i < |s| ==> !IsNumberWhite(s[i])) ==> r == s
  {
    if s != [] && IsNumberWhite(s[0]) then StripNumberWhite(s[1..])
    else if s != [] && IsNumberWhite(s[|s| - 1]) then StripNumberWhite(s[..|s| - 1])
    else s
  }

  /** The integer text `[ws][+|-]digits[ws]` accepted by `int.Parse` with the
      default integer style and by `decimal.Parse` when the text has no decimal
      point, group separator or trailing sign. Anything else fails (the source
      throws a `FormatException`). */
  function ParseInteger(s: string): Option<int>
  {
    var t := StripNumberWhite(s);
    if t == [] then None
    else if (t[0] == '-' || t[0] == '+') && |t| > 1 && AllDigits(t[1..]) then
      var v: int := DigitsValue(t[1..]);
      Some(if t[0] == '-' then -v else v)
    else if AllDigits(t) then
      Some(DigitsValue(t))
    else None
  }

  /** A string of digits, such as a fixed-width amount field, parses to the
      number it denotes. */
  lemma ParseDigits(s: string)
    requires |s| > 0 && AllDigits(s)
    ensures ParseInteger(s) == Some(DigitsValue(s))
  {
    assert StripNumberWhite(s) == s;
  }

  /** A one-character text (the type field) parses exactly when it is a digit,
      and then to that digit's value. */
  lemma ParseOneChar(c: char)
    ensures ParseInteger([c]).Some? <==> IsDigit(c)
    ensures IsDigit(c) ==> ParseInteger([c]) == Some(DigitValue(c))
  {
    if IsNumberWhite(c) {
      assert StripNumberWhite([c]) == StripNumberWhite([]);
    } else {
      assert StripNumberWhite([c]) == [c];
      assert [c][1..] == [];
    }
  }

  /** `int.Parse(n.ToString())` gives back `n`, and `-n` with a minus sign. */
  lemma ParseNatToString(n: nat)
    ensures ParseInteger(NatToString(n)) == Some(n)
    ensures ParseInteger("-" + NatToString(n)) == Some(-(n as int))
  {
    ParseDigits(NatToString(n));
    ParseNegated(NatToString(n));
  }

  /** A minus sign followed by digits parses to the negated value. */
  lemma ParseNegated(s: string)
    requires |s| > 0 && AllDigits(s)
    ensures ParseInteger("-" + s) == Some(-(DigitsValue(s) as int))
  {
    var m := "-" + s;
    assert m[0] == '-' && m[1..] == s;
    assert forall i :: 0 <= i < |m| ==> !IsNumberWhite(m[i]);
    assert StripNumberWhite(m) == m;
  }
}
