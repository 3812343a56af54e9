/**
 * The two conversions of Go's strconv package the core uses: Atoi, written
 * out, and ParseFloat, whose outcome the model takes from an oracle.
 */
module Strconv {
  import opened Models

  /** Atoi's two results: the value and whether the error was nil. */
  datatype AtoiResult = AtoiResult(value: int, ok: bool)

  /** ParseFloat's two results: the float64 and whether the error was nil. */
  datatype FloatResult = FloatResult(value: Price, ok: bool)

  predicate IsDigit(c: char) {
    '0' <= c <= '9'
  }

  predicate AllDigits(s: string) {
    forall i :: 0 <= i < |s| ==> IsDigit(s[i])
  }

  function DigitValue(c: char): (d: nat)
    requires IsDigit(c)
    ensures d < 10
  {
    c as int - '0' as int
  }

  /** The value of a string of decimal digits, most significant first. */
  function DigitsValue(s: string): nat
    requires AllDigits(s)
    decreases |s|
  {
    if |s| == 0 then 0 else 10 * DigitsValue(s[..|s| - 1]) + DigitValue(s[|s| - 1])
  }

  /** The syntax Atoi accepts in base 10: an optional sign, then one or more digits. */
  predicate IsDecimal(s: string) {
    if |s| > 0 && (s[0] == '+' || s[0] == '-') then |s| > 1 && AllDigits(s[1..])
    else |s| > 0 && AllDigits(s)
  }

  /** Go's int on the 64-bit targets the service is built for. */
  const MinInt: int := -0x8000_0000_0000_0000
  const MaxInt: int := 0x7fff_ffff_ffff_ffff

  /** The largest uint64, where ParseUint stops reading digits. */
  const MaxUint64: int := 0xffff_ffff_ffff_ffff

  /** The integer a decimal string denotes, of any size. */
  function DecimalValue(s: string): int
    requires IsDecimal(s)
  {
    if s[0] == '-' then 0 - DigitsValue(s[1..]) as int
    else if s[0] == '+' then DigitsValue(s[1..])
    else DigitsValue(s)
  }

  /** Whether the text starts with a minus sign. */
  predicate Negative(s: string) {
    |s| > 0 && s[0] == '-'
  }

  /** The text after an optional leading sign. */
  function Unsigned(s: string): (u: string)
    ensures |u| <= |s|
  {
    if |s| > 0 && (s[0] == '+' || s[0] == '-') then s[1..] else s
  }

  /**
   * ParseUint's loop over the digits a string starts with: the value read
   * so far, n, times 10 plus the next digit, up to the first non-digit.
   */
  function ScanDigits(s: string, n: nat): nat
    decreases |s|
  {
    if |s| == 0 || !IsDigit(s[0]) then n else ScanDigits(s[1..], 10 * n + DigitValue(s[0]))
  }

  /**
   * The digits after the sign exceed the largest uint64. ParseUint gives
   * up with a range error at the first digit that takes the value past it,
   * before it reaches any later character; the value only grows from one
   * digit to the next, so this is the same as the whole run of leading
   * digits exceeding it, and such text is out of range whatever follows.
   */
  predicate Overflows(s: string) {
    ScanDigits(Unsigned(s), 0) > MaxUint64
  }

  /**
   * strconv.Atoi. Text whose leading digits overflow a uint64 gives the
   * bound of its sign; any other text that is not a decimal gives 0; a
   * decimal outside the 64-bit range gives the nearest bound. The error is
   * nil exactly for a decimal inside the range.
   */
  function Atoi(s: string): (r: AtoiResult)
    ensures MinInt <= r.value <= MaxInt
    ensures r.ok <==> IsDecimal(s) && MinInt <= DecimalValue(s) <= MaxInt
    ensures r.ok ==> r.value == DecimalValue(s)
    ensures Overflows(s) ==> r == AtoiResult(if Negative(s) then MinInt else MaxInt, false)
    ensures !IsDecimal(s) && !Overflows(s) ==> r.value == 0
    ensures IsDecimal(s) && DecimalValue(s) > MaxInt ==> r.value == MaxInt
    ensures IsDecimal(s) && DecimalValue(s) < MinInt ==> r.value == MinInt
  {
    if Overflows(s) then
      OverflowNotInRange(s);
      AtoiResult(if Negative(s) then MinInt else MaxInt, false)
    else if !IsDecimal(s) then AtoiResult(0, false)
    else
      var v := DecimalValue(s);
      if v > MaxInt then AtoiResult(MaxInt, false)
      else if v < MinInt then AtoiResult(MinInt, false)
      else AtoiResult(v, true)
  }

  /** Reading one more digit multiplies the value so far by 10 and adds it. */
  lemma {:induction false} ScanDigitsSnoc(s: string, c: char, n: nat)
    requires AllDigits(s) && IsDigit(c)
    ensures ScanDigits(s + [c], n) == 10 * ScanDigits(s, n) + DigitValue(c)
    decreases |s|
  {
    if |s| == 0 {
      assert ([] + [c])[1..] == [];
    } else {
      ScanDigitsSnoc(s[1..], c, 10 * n + DigitValue(s[0]));
      assert (s + [c])[1..] == s[1..] + [c];
    }
  }

  /** On a string of digits ParseUint's loop computes its decimal value. */
  lemma {:induction false} ScanDigitsValue(s: string)
    requires AllDigits(s)
    ensures ScanDigits(s, 0) == DigitsValue(s)
    decreases |s|
  {
    if |s| > 0 {
      var init := s[..|s| - 1];
      ScanDigitsValue(init);
      ScanDigitsSnoc(init, s[|s| - 1], 0);
      assert init + [s[|s| - 1]] == s;
    }
  }

  /** A decimal whose digits overflow a uint64 lies beyond the bound of its sign. */
  lemma OverflowNotInRange(s: string)
    requires Overflows(s)
    ensures IsDecimal(s) && !Negative(s) ==> DecimalValue(s) > MaxInt
    ensures IsDecimal(s) && Negative(s) ==> DecimalValue(s) < MinInt
  {
    if IsDecimal(s) {
      ScanDigitsValue(Unsigned(s));
    }
  }

  /** ParseUint's loop never lowers the value read so far. */
  lemma {:induction false} ScanGrows(s: string, n: nat)
    ensures ScanDigits(s, n) >= n
    decreases |s|
  {
    if |s| > 0 && IsDigit(s[0]) {
      ScanGrows(s[1..], 10 * n + DigitValue(s[0]));
    }
  }

  /** Whatever follows a run of digits, ParseUint reads at least their value. */
  lemma {:induction false} ScanSuffix(d: string, t: string, n: nat)
    requires AllDigits(d)
    ensures ScanDigits(d + t, n) >= ScanDigits(d, n)
    decreases |d|
  {
    if |d| == 0 {
      assert d + t == t;
      ScanGrows(t, n);
    } else {
      assert (d + t)[0] == d[0];
      assert (d + t)[1..] == d[1..] + t;
      ScanSuffix(d[1..], t, 10 * n + DigitValue(d[0]));
    }
  }

  /** Digits too many for a uint64, with any text after them, overflow; so do they after a sign. */
  lemma OverflowingDigits(d: string, t: string, sign: string)
    requires AllDigits(d) && DigitsValue(d) > MaxUint64
    requires sign == "" || sign == "-" || sign == "+"
    ensures Unsigned(sign + d + t) == d + t
    ensures Overflows(sign + d + t)
  {
    ScanDigitsValue(d);
    ScanSuffix(d, t, 0);
    assert (d + t)[0] == d[0];
    var s := sign + d + t;
    if sign == "" {
      assert s == d + t;
    } else {
      assert s[0] == sign[0];
      assert s[1..] == d + t;
    }
  }

  /**
   * Digits too many for a uint64 make Atoi report the bound of the sign,
   * whatever text follows them: "99999999999999999999x" is the largest int
   * with an error, not the 0 of a syntax error.
   */
  lemma OverflowWhateverFollows(d: string, t: string)
    requires AllDigits(d) && DigitsValue(d) > MaxUint64
    ensures Atoi(d + t) == AtoiResult(MaxInt, false)
    ensures Atoi("-" + d + t) == AtoiResult(MinInt, false)
  {
    OverflowingDigits(d, t, "");
    assert "" + d + t == d + t;
    OverflowingDigits(d, t, "-");
    assert Negative("-" + d + t);
  }

  function DigitChar(d: nat): (c: char)
    requires d < 10
    ensures IsDigit(c) && DigitValue(c) == d
  {
    ('0' as int + d) as char
  }

  /** The decimal digits of a natural number, without leading zeros. */
  function NatDigits(n: nat): string
    decreases n
  {
    if n < 10 then [DigitChar(n)] else NatDigits(n / 10) + [DigitChar(n % 10)]
  }

  /** strconv.Itoa, the partner of Atoi: how the CSV files write an id. */
  function Itoa(n: int): string {
    if n < 0 then "-" + NatDigits(-n) else NatDigits(n)
  }

  lemma {:induction false} NatDigitsValue(n: nat)
    ensures |NatDigits(n)| > 0 && AllDigits(NatDigits(n))
    ensures NatDigits(n)[0] != '-' && NatDigits(n)[0] != '+'
    ensures DigitsValue(NatDigits(n)) == n
    decreases n
  {
    if n >= 10 {
      NatDigitsValue(n / 10);
      var s := NatDigits(n);
      assert s[..|s| - 1] == NatDigits(n / 10);
      assert s[0] == NatDigits(n / 10)[0];
    }
  }

  /** Atoi reads back every integer Itoa writes, as long as it fits in an int. */
  lemma {:induction false} AtoiItoa(n: int)
    requires MinInt <= n <= MaxInt
    ensures Atoi(Itoa(n)) == AtoiResult(n, true)
  {
    if n < 0 {
      NatDigitsValue(-n);
      assert Itoa(n)[1..] == NatDigits(-n);
    } else {
      NatDigitsValue(n);
    }
  }
}
