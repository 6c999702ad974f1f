/**
 * Go's `strconv.ParseUint(s, 10, 64)` and `strconv.ParseInt(s, 10, 64)`, which
 * the parameter container calls. Both scan left to right and stop at the first
 * failure: a byte that is not a decimal digit is a syntax error, a value that
 * no longer fits 64 bits is a range error that comes with the clamped value.
 */
module Strconv {
  import opened Optional

  const MaxUint64: int := 0xFFFF_FFFF_FFFF_FFFF
  const MaxInt64: int := 0x7FFF_FFFF_FFFF_FFFF
  const MinInt64: int := -0x8000_0000_0000_0000

  /** `strconv.ErrSyntax` and `strconv.ErrRange`. */
  datatype Cause = ErrSyntax | ErrRange

  /** `*strconv.NumError`: the function that failed, its input and the cause. */
  datatype NumError = NumError(fn: string, num: string, cause: Cause)

  predicate IsDigit(c: char)
  {
    '0' <= c <= '9'
  }

  predicate AllDigits(s: string)
  {
    forall i :: 0 <= i < |s| ==> IsDigit(s[i])
  }

  function DigitValue(c: char): int
  {
    c as int - '0' as int
  }

  /** The decimal value of a digit string, read most significant digit first. */
  function Value(s: string): (n: int)
    requires AllDigits(s)
    ensures n >= 0
  {
    if s == [] then 0 else Value(s[..|s| - 1]) * 10 + DigitValue(s[|s| - 1])
  }

  /** The shortest decimal digit string of n: the reference against which parsing is checked. */
  function Decimal(n: nat): (s: string)
    ensures s != [] && AllDigits(s)
  {
    if n < 10 then ['0' + n as char]
    else Decimal(n / 10) + ['0' + (n % 10) as char]
  }

  lemma {:induction false} ValueDecimal(n: nat)
    ensures Value(Decimal(n)) == n
  {
    if n >= 10 {
      var s := Decimal(n);
      assert s[..|s| - 1] == Decimal(n / 10);
      ValueDecimal(n / 10);
    }
  }

  /** `maxUint64/10 + 1`: a value at or above it overflows when multiplied by 10. */
  const Cutoff: int := MaxUint64 / 10 + 1

  /** The digit loop of ParseUint from index i with n accumulated so far. */
  function ScanDigits(s: string, i: nat, n: int): (r: (int, Option<Cause>))
    requires i <= |s| && 0 <= n <= MaxUint64
    ensures 0 <= r.0 <= MaxUint64
    ensures r.1 == Some(ErrRange) ==> r.0 == MaxUint64
    decreases |s| - i
  {
    if i == |s| then (n, None)
    else if !IsDigit(s[i]) then (0, Some(ErrSyntax))
    else if n >= Cutoff then (MaxUint64, Some(ErrRange))
    else
      var n1 := n * 10 + DigitValue(s[i]);
      if n1 > MaxUint64 then (MaxUint64, Some(ErrRange))
      else ScanDigits(s, i + 1, n1)
  }

  /** `strconv.ParseUint(s, 10, 64)`. */
  function ParseUint(s: string): (r: (int, Option<NumError>))
    ensures 0 <= r.0 <= MaxUint64
    ensures r.1.Some? && r.1.value.cause == ErrRange ==> r.0 == MaxUint64
  {
    if s == [] then (0, Some(NumError("ParseUint", s, ErrSyntax)))
    else
      var (n, cause) := ScanDigits(s, 0, 0);
      (n, if cause.None? then None else Some(NumError("ParseUint", s, cause.value)))
  }

  /**
   * `strconv.ParseInt(s, 10, 64)`: an optional sign, then ParseUint's digits,
   * then the signed range check. The value is always in the int64 range (the
   * clamped bound on overflow), and an error names ParseInt and the input.
   */
  function ParseInt(s: string): (r: (int, Option<NumError>))
    ensures MinInt64 <= r.0 <= MaxInt64
    ensures r.1.Some? ==> r.1.value.fn == "ParseInt" && r.1.value.num == s
    ensures r.1.Some? && r.1.value.cause == ErrRange ==> r.0 == MaxInt64 || r.0 == MinInt64
  {
    if s == [] then (0, Some(NumError("ParseInt", s, ErrSyntax)))
    else
      var neg := s[0] == '-';
      var body := if s[0] == '+' || s[0] == '-' then s[1..] else s;
      var (un, err) := ParseUint(body);
      if err.Some? && err.value.cause != ErrRange then (0, Some(NumError("ParseInt", s, err.value.cause)))
      else if !neg && un > MaxInt64 then (MaxInt64, Some(NumError("ParseInt", s, ErrRange)))
      else if neg && un > -MinInt64 then (MinInt64, Some(NumError("ParseInt", s, ErrRange)))
      else (if neg then -un else un, None)
  }

  // ----- What the scan computes -----

  lemma ValueSnoc(s: string, i: nat)
    requires i < |s| && AllDigits(s[..i + 1])
    ensures AllDigits(s[..i])
    ensures Value(s[..i + 1]) == Value(s[..i]) * 10 + DigitValue(s[i])
  {
    assert s[..i + 1][..i] == s[..i];
  }

  /**
   * From index i with the value of the digits before i accumulated, the scan
   * succeeds exactly when the rest are digits and the whole value fits.
   */
  lemma {:induction false} ScanDigitsMeaning(s: string, i: nat)
    requires i <= |s|
    requires AllDigits(s[..i]) && Value(s[..i]) <= MaxUint64
    ensures var (n, cause) := ScanDigits(s, i, Value(s[..i]));
      && (cause.None? <==> AllDigits(s) && Value(s) <= MaxUint64)
      && (cause.None? ==> n == Value(s))
      && (AllDigits(s) && Value(s) > MaxUint64 ==> cause == Some(ErrRange) && n == MaxUint64)
    decreases |s| - i
  {
    if i == |s| {
      assert s[..i] == s;
    } else if !IsDigit(s[i]) {
    } else {
      assert AllDigits(s[..i + 1]) by {
        assert forall j :: 0 <= j < i ==> s[..i + 1][j] == s[..i][j];
      }
      ValueSnoc(s, i);
      var n1 := Value(s[..i]) * 10 + DigitValue(s[i]);
      if Value(s[..i]) >= Cutoff || n1 > MaxUint64 {
        if AllDigits(s) {
          ValueMonotone(s, i + 1);
        }
      } else {
        ScanDigitsMeaning(s, i + 1);
      }
    }
  }

  /** Appending digits never lowers the value. */
  lemma {:induction false} ValueMonotone(s: string, i: nat)
    requires i <= |s| && AllDigits(s)
    ensures Value(s[..i]) <= Value(s)
    decreases |s| - i
  {
    if i < |s| {
      assert AllDigits(s[..i + 1]);
      ValueSnoc(s, i);
      ValueMonotone(s, i + 1);
    } else {
      assert s[..i] == s;
    }
  }

  /**
   * ParseUint reports no error exactly for a non-empty digit string whose value
   * fits 64 bits, and then returns that value; an all-digit string that is too
   * large gives the range error with the maximum value.
   */
  lemma ParseUintMeaning(s: string)
    ensures ParseUint(s).1.None? <==> s != [] && AllDigits(s) && Value(s) <= MaxUint64
    ensures ParseUint(s).1.None? ==> ParseUint(s).0 == Value(s)
    ensures s != [] && AllDigits(s) && Value(s) > MaxUint64 ==>
      ParseUint(s) == (MaxUint64, Some(NumError("ParseUint", s, ErrRange)))
  {
    if s != [] {
      assert s[..0] == [];
      ScanDigitsMeaning(s, 0);
    }
  }

  /** Every 64-bit unsigned value survives printing in decimal and parsing back. */
  lemma ParseUintDecimal(n: nat)
    requires n <= MaxUint64
    ensures ParseUint(Decimal(n)) == (n, None)
  {
    ValueDecimal(n);
    ParseUintMeaning(Decimal(n));
  }

  /** Every 64-bit signed value survives printing in decimal (with '-' when negative) and parsing back. */
  lemma ParseIntDecimal(n: int)
    requires MinInt64 <= n <= MaxInt64
    ensures n >= 0 ==> ParseInt(Decimal(n)) == (n, None)
    ensures n < 0 ==> ParseInt("-" + Decimal(-n)) == (n, None)
  {
    if n >= 0 {
      ParseUintDecimal(n);
      assert Decimal(n)[0] != '+' && Decimal(n)[0] != '-';
    } else {
      ParseUintDecimal(-n);
      assert ("-" + Decimal(-n))[1..] == Decimal(-n);
    }
  }

  /** The digits of a signed decimal: what follows an optional '+' or '-'. */
  function Magnitude(s: string): string
  {
    if s != [] && (s[0] == '+' || s[0] == '-') then s[1..] else s
  }

  /** The value of a signed decimal string: its digits' value, negated after a '-'. */
  function SignedValue(s: string): int
    requires AllDigits(Magnitude(s))
  {
    if s != [] && s[0] == '-' then -Value(Magnitude(s)) else Value(Magnitude(s))
  }

  /**
   * ParseInt reports no error exactly for an optional sign followed by a
   * non-empty digit string whose signed value lies in the int64 range, and
   * then returns that value.
   */
  lemma ParseIntMeaning(s: string)
    ensures ParseInt(s).1.None? <==>
      Magnitude(s) != [] && AllDigits(Magnitude(s)) && MinInt64 <= SignedValue(s) <= MaxInt64
    ensures ParseInt(s).1.None? ==> ParseInt(s).0 == SignedValue(s)
  {
    ParseUintMeaning(Magnitude(s));
  }
}
