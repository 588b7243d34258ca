/**
 * Decimal digit strings: rendering naturals (Go's `%d` and `strconv.Itoa` for
 * non-negative values) and Go's `strconv.ParseInt(s, 10, 32)`.
 */
module Decimal {
  import opened Wrappers

  const MinInt32: int := -0x8000_0000
  const MaxInt32: int := 0x7fff_ffff
  const MaxUint32: int := 0xffff_ffff

  /** Go's `int32`. */
  type Int32 = x: int | MinInt32 <= x <= MaxInt32

  predicate IsDigit(c: char) { '0' <= c <= '9' }

  predicate AllDigits(s: string) { forall i :: 0 <= i < |s| ==> IsDigit(s[i]) }

  function DigitValue(c: char): (d: nat)
    requires IsDigit(c)
    ensures d < 10
  {
    (c as int) - ('0' as int)
  }

  function DigitChar(d: nat): (c: char)
    requires d < 10
    ensures IsDigit(c) && DigitValue(c) == d
  {
    (('0' as int) + d) as char
  }

  /** The decimal representation of `n`, most significant digit first, no leading zeros. */
  function Digits(n: nat): (s: string)
    ensures 1 <= |s| && AllDigits(s)
  {
    if n < 10 then [DigitChar(n)] else Digits(n / 10) + [DigitChar(n % 10)]
  }

  /** The number a digit string denotes, read most significant digit first. */
  function Value(s: string): nat
    requires AllDigits(s)
  {
    if s == [] then 0 else Value(s[..|s| - 1]) * 10 + DigitValue(s[|s| - 1])
  }

  /** Reading back the rendering of `n` gives `n`. */
  lemma {:induction false} ValueOfDigits(n: nat)
    ensures Value(Digits(n)) == n
  {
    var s := Digits(n);
    if n >= 10 {
      assert s[..|s| - 1] == Digits(n / 10);
      ValueOfDigits(n / 10);
    }
  }

  /** A longer digit string never denotes a smaller number than its prefix. */
  lemma {:induction false} ValuePrefixMonotone(s: string, k: nat)
    requires AllDigits(s) && k <= |s|
    ensures AllDigits(s[..k]) && Value(s[..k]) <= Value(s)
    decreases |s|
  {
    if k < |s| {
      var init := s[..|s| - 1];
      assert init[..k] == s[..k];
      ValuePrefixMonotone(init, k);
      assert Value(s) == Value(init) * 10 + DigitValue(s[|s| - 1]);
    } else {
      assert s[..k] == s;
    }
  }

  /** The longest prefix of `s` made of digits only. */
  function LeadingDigits(s: string): (p: string)
    ensures |p| <= |s| && p == s[..|p|] && AllDigits(p)
    ensures |p| < |s| ==> !IsDigit(s[|p|])
  {
    if s == [] || !IsDigit(s[0]) then [] else [s[0]] + LeadingDigits(s[1..])
  }

  lemma {:induction false} LeadingDigitsOfDigits(s: string)
    requires AllDigits(s)
    ensures LeadingDigits(s) == s
  {
    if s != [] {
      LeadingDigitsOfDigits(s[1..]);
    }
  }

  datatype NumError = ErrSyntax | ErrRange

  /** The pair Go's `strconv.ParseInt` returns. */
  datatype Parsed = Parsed(value: int, err: Option<NumError>)

  /** The text after an optional leading sign. */
  function Magnitude(s: string): string
    requires s != []
  {
    if s[0] == '+' || s[0] == '-' then s[1..] else s
  }

  /** The number a sign and digits denote. */
  function SignedValue(s: string): int
    requires s != [] && AllDigits(Magnitude(s))
  {
    if s[0] == '-' then -(Value(Magnitude(s)) as int) else Value(Magnitude(s))
  }

  /** The signed number lies within the 32-bit range. */
  predicate InRange(s: string)
    requires s != [] && AllDigits(Magnitude(s))
  {
    MinInt32 <= SignedValue(s) <= MaxInt32
  }

  /**
   * The unsigned scan `ParseInt` runs on the magnitude, with the same 32-bit
   * size, gives up with a range error once the digits read so far exceed
   * 2^32 - 1, before it could meet a later non-digit.
   */
  predicate ScanOverflows(s: string)
    requires s != []
  {
    Value(LeadingDigits(Magnitude(s))) > MaxUint32
  }

  /**
   * `strconv.ParseInt(s, 10, 32)`: an optional sign, then decimal digits.
   * Malformed text yields `(0, ErrSyntax)`; a number outside the 32-bit range
   * yields the nearest bound with `ErrRange`. The magnitude is read by
   * `ParseUint(_, 10, 32)`, which reports a range error as soon as its digit
   * prefix exceeds 2^32 - 1, even when a non-digit follows.
   */
  function ParseInt32(s: string): (r: Parsed)
    ensures MinInt32 <= r.value <= MaxInt32
    ensures r.err == None <==> s != [] && Magnitude(s) != [] && AllDigits(Magnitude(s)) && InRange(s)
    ensures r.err == None ==> r.value == SignedValue(s)
    ensures r.err == Some(ErrRange) <==>
      s != [] && (ScanOverflows(s) || (Magnitude(s) != [] && AllDigits(Magnitude(s)) && !InRange(s)))
    ensures r.err == Some(ErrRange) ==> r.value == if s[0] == '-' then MinInt32 else MaxInt32
    ensures r.err == Some(ErrSyntax) ==> r.value == 0
  {
    if s == [] then Parsed(0, Some(ErrSyntax))
    else
      var neg := s[0] == '-';
      var body := Magnitude(s);
      var lead := LeadingDigits(body);
      if Value(lead) > MaxUint32 then
        assert |lead| < |body| ==> !IsDigit(body[|lead|]);
        assert |lead| == |body| ==> lead == body;
        Parsed(if neg then MinInt32 else MaxInt32, Some(ErrRange))
      else if body == [] || lead != body then Parsed(0, Some(ErrSyntax))
      else if !neg && Value(body) > MaxInt32 then Parsed(MaxInt32, Some(ErrRange))
      else if neg && Value(body) > -MinInt32 then Parsed(MinInt32, Some(ErrRange))
      else Parsed(if neg then -(Value(body) as int) else Value(body), None)
  }

  /** Any plain digit string (leading zeros allowed) within the 32-bit range parses to its value. */
  lemma ParseAllDigits(s: string)
    requires s != [] && AllDigits(s) && Value(s) <= MaxInt32
    ensures ParseInt32(s) == Parsed(Value(s), None)
  {
    assert IsDigit(s[0]);
    LeadingDigitsOfDigits(s);
  }

  lemma ValueAppendDigit(s: string, c: char)
    requires AllDigits(s) && IsDigit(c)
    ensures AllDigits(s + [c]) && Value(s + [c]) == Value(s) * 10 + DigitValue(c)
  {
    assert (s + [c])[..|s|] == s;
  }

  /** A leading `+` is accepted. */
  lemma ParsePlusSign()
    ensures ParseInt32("+5") == Parsed(5, None)
  {
    assert Magnitude("+5") == "5";
  }

  /** Leading zeros are read past, after a sign too. */
  lemma ParseLeadingZeros()
    ensures ParseInt32("-007") == Parsed(-7, None)
  {
    ValueAppendDigit("0", '0');
    assert "0" + ['0'] == "00";
    ValueAppendDigit("00", '7');
    assert "00" + ['7'] == "007";
    assert Magnitude("-007") == "007";
  }

  /** Digits followed by anything else are a syntax error. */
  lemma ParseTrailingJunk()
    ensures ParseInt32("12abc") == Parsed(0, Some(ErrSyntax))
  {
    var s := "12abc";
    assert Magnitude(s) == s && s[..2] == "12" && !IsDigit(s[2]);
    LeadingDigitsUnique(s, "12");
    ValueAppendDigit("1", '2');
    assert "1" + ['2'] == "12";
  }

  /** Parsing the rendering of a 32-bit natural gives it back without error. */
  lemma ParseDigits(n: nat)
    requires n <= MaxInt32
    ensures ParseInt32(Digits(n)) == Parsed(n, None)
  {
    LeadingDigitsOfDigits(Digits(n));
    ValueOfDigits(n);
  }

  /** Parsing `-` followed by the rendering of `n` gives `-n` down to the 32-bit minimum. */
  lemma ParseNegativeDigits(n: nat)
    requires n <= -MinInt32
    ensures ParseInt32("-" + Digits(n)) == Parsed(-(n as int), None)
  {
    var s := "-" + Digits(n);
    assert s[1..] == Digits(n);
    LeadingDigitsOfDigits(Digits(n));
    ValueOfDigits(n);
  }

  /** A digit string with more than 32 bits of value is a range error clamped to the upper bound, whatever follows it. */
  lemma ParseOverflowClampsHigh(d: string, rest: string)
    requires AllDigits(d) && d != [] && Value(d) > MaxUint32
    ensures ParseInt32(d + rest) == Parsed(MaxInt32, Some(ErrRange))
  {
    var lead := LeadingDigits(d + rest);
    LeadingDigitsOfAppend(d, rest);
    assert lead[..|d|] == d;
    ValuePrefixMonotone(lead, |d|);
  }

  /** `"4294967296x"` overflows the 32-bit scan at its last digit, before the `x` is read. */
  lemma ParseOverflowBeforeJunk()
    ensures ParseInt32("4294967296x") == Parsed(MaxInt32, Some(ErrRange))
  {
    assert "4294967296x" == "4294967296" + "x";
    ValueTwoToThe32();
    ParseOverflowClampsHigh("4294967296", "x");
  }

  /** The digits of 2^32 read back as 2^32. */
  lemma ValueTwoToThe32()
    ensures AllDigits("4294967296") && Value("4294967296") == 4294967296
  {
    assert "42"[..1] == "4";
    assert "429"[..2] == "42";
    assert "4294"[..3] == "429";
    assert "42949"[..4] == "4294";
    assert "429496"[..5] == "42949";
    assert "4294967"[..6] == "429496";
    assert "42949672"[..7] == "4294967";
    assert "429496729"[..8] == "42949672";
    assert "4294967296"[..9] == "429496729";
  }

  /** Digits within 32 bits followed by a non-digit are a syntax error, even above int32: `"3000000000x"` gives (0, ErrSyntax). */
  lemma ParseJunkAfterDigits(d: string, c: char, rest: string)
    requires d != [] && AllDigits(d) && Value(d) <= MaxUint32 && !IsDigit(c)
    ensures ParseInt32(d + [c] + rest) == Parsed(0, Some(ErrSyntax))
  {
    var s := d + [c] + rest;
    assert s == d + ([c] + rest);
    assert IsDigit(s[0]) && Magnitude(s) == s;
    LeadingDigitsOfAppend(d, [c] + rest);
    LeadingDigitsUnique([c] + rest, []);
    assert LeadingDigits(s) == d;
    assert s[|d|] == c;
  }

  /** The longest digit prefix is the only digit prefix not followed by a digit. */
  lemma LeadingDigitsUnique(s: string, p: string)
    requires |p| <= |s| && p == s[..|p|] && AllDigits(p)
    requires |p| < |s| ==> !IsDigit(s[|p|])
    ensures LeadingDigits(s) == p
  {
    var q := LeadingDigits(s);
    assert forall i :: 0 <= i < |p| ==> s[i] == p[i];
    assert forall i :: 0 <= i < |q| ==> s[i] == q[i];
    assert |q| == |p|;
  }

  lemma LeadingDigitsOfAppend(d: string, rest: string)
    requires AllDigits(d)
    ensures LeadingDigits(d + rest) == d + LeadingDigits(rest)
  {
    var s, l := d + rest, LeadingDigits(rest);
    var p := d + l;
    assert s[..|p|] == p;
    assert |p| < |s| ==> s[|p|] == rest[|l|];
    LeadingDigitsUnique(s, p);
  }
}
