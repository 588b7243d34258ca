/**
 * The "MM-YYYY" date codec: Go's `time.Parse` and `Time.Format` with the
 * layout "01-2006".
 */
module MonthYear {
  import opened Wrappers
  import opened Decimal
  import opened Calendar

  const ErrorPrefix: string := "invalid date format, expected MM-YYYY"

  /** The layout element at which `time.Parse` gives up. */
  datatype ParseFailure =
    | BadMonth         // fewer than two digits where "01" stands
    | MonthOutOfRange  // two digits, but not 01..12
    | BadSeparator     // the '-' is missing
    | BadYear          // fewer than four digits where "2006" stands
    | ExtraText        // text left over after the year

  datatype DateError = DateError(failure: ParseFailure) {
    /** The wrapped error's text; only its prefix is fixed by the service. */
    function Message(): string {
      ErrorPrefix + ": " + match failure
        case BadMonth => "cannot parse month"
        case MonthOutOfRange => "month out of range"
        case BadSeparator => "cannot parse separator"
        case BadYear => "cannot parse year"
        case ExtraText => "extra text"
    }
  }

  /** The shape the layout accepts: two digits, a dash, four digits, nothing more. */
  predicate WellFormed(s: string) {
    |s| == 7 && AllDigits(s[..2]) && s[2] == '-' && AllDigits(s[3..])
  }

  /**
   * `time.Parse("01-2006", s)`: the month must be two digits forming 01..12,
   * then '-', then exactly four digits; the day defaults to the 1st.
   */
  function Parse(s: string): (r: Result<CalendarDate, DateError>)
    ensures r.Ok? <==> WellFormed(s) && 1 <= Value(s[..2]) <= 12
    ensures r.Ok? ==> r.value == Date(Value(s[3..]), Value(s[..2]), 1)
    ensures r.Err? ==> |r.error.Message()| > |ErrorPrefix| && r.error.Message()[..|ErrorPrefix|] == ErrorPrefix
  {
    if |s| < 2 || !AllDigits(s[..2]) then Err(DateError(BadMonth))
    else
      var month := Value(s[..2]);
      assert |s| == 7 ==> s[3..7] == s[3..];
      if month < 1 || month > 12 then Err(DateError(MonthOutOfRange))
      else if |s| < 3 || s[2] != '-' then Err(DateError(BadSeparator))
      else if |s| < 7 || !AllDigits(s[3..7]) then Err(DateError(BadYear))
      else if |s| > 7 then Err(DateError(ExtraText))
      else Ok(Date(Value(s[3..7]), month, 1))
  }

  /** Go's `appendInt(b, u, 4)` for a non-negative `u`: zero-padded to at least four digits. */
  function PadFour(u: nat): (s: string)
    ensures AllDigits(s)
    ensures u <= 9999 ==> |s| == 4 && Value(s) == u
  {
    if u <= 9999 then
      var s := [DigitChar(u / 1000), DigitChar(u / 100 % 10), DigitChar(u / 10 % 10), DigitChar(u % 10)];
      DecimalPlaces(u);
      ValueFour(s);
      s
    else Digits(u)
  }

  /** The four decimal places of a number below 10000. */
  lemma DecimalPlaces(u: nat)
    requires u <= 9999
    ensures u / 1000 < 10 && u / 100 % 10 < 10 && u / 10 % 10 < 10
    ensures u == 1000 * (u / 1000) + 100 * (u / 100 % 10) + 10 * (u / 10 % 10) + u % 10
  {
    var q := u / 10;
    assert u == 10 * q + u % 10;
    assert q / 10 == u / 100;
    assert q == 10 * (u / 100) + q % 10;
    assert u / 100 == 10 * (u / 1000) + u / 100 % 10;
  }

  /** `Time.Format("01-2006")`: the month zero-padded to two digits, '-', the year padded to four. */
  function Format(t: CalendarDate): (s: string)
    ensures 0 <= t.year <= 9999 ==> WellFormed(s) && Value(s[..2]) == t.month && Value(s[3..]) == t.year
  {
    var month := [DigitChar(t.month / 10), DigitChar(t.month % 10)];
    var year := if t.year < 0 then "-" + PadFour(-t.year) else PadFour(t.year);
    ValueTwo(month);
    month + "-" + year
  }

  /** Formatting then parsing keeps the month and year and drops the day. */
  lemma ParseFormat(t: CalendarDate)
    requires 0 <= t.year <= 9999
    ensures Parse(Format(t)) == Ok(FirstOfMonth(t))
  {
  }

  /** Every accepted text is given back exactly by formatting what it parses to. */
  lemma FormatParse(s: string)
    requires Parse(s).Ok?
    ensures Format(Parse(s).value) == s
  {
    var t := Parse(s).value;
    var f := Format(t);
    ValueFour(s[3..]);
    SameWidthUnique(f[..2], s[..2]);
    SameWidthUnique(f[3..], s[3..]);
    assert f == f[..2] + "-" + f[3..];
    assert s == s[..2] + "-" + s[3..];
  }

  lemma ValueTwo(a: string)
    requires |a| == 2 && AllDigits(a)
    ensures Value(a) == 10 * DigitValue(a[0]) + DigitValue(a[1])
  {
    assert Value(a) == Value(a[..1]) * 10 + DigitValue(a[1]);
    assert a[..1][..0] == [];
    assert Value(a[..1]) == DigitValue(a[0]);
  }

  lemma ValueFour(a: string)
    requires |a| == 4 && AllDigits(a)
    ensures Value(a) == 1000 * DigitValue(a[0]) + 100 * DigitValue(a[1]) + 10 * DigitValue(a[2]) + DigitValue(a[3])
    ensures Value(a) <= 9999
  {
    ValueTwo(a[..2]);
    assert a[..3][..2] == a[..2];
  }

  /** Fixed-width digit texts with the same value are the same text: MM-YYYY has one spelling per month. */
  lemma {:induction false} SameWidthUnique(a: string, b: string)
    requires |a| == |b| && AllDigits(a) && AllDigits(b) && Value(a) == Value(b)
    ensures a == b
  {
    if a != [] {
      var n := |a| - 1;
      assert AllDigits(a[..n]) && AllDigits(b[..n]);
      var x, y := Value(a[..n]), Value(b[..n]);
      var d, e := DigitValue(a[n]), DigitValue(b[n]);
      assert x * 10 + d == y * 10 + e;
      assert d == e && x == y;
      SameWidthUnique(a[..n], b[..n]);
      assert a == a[..n] + [a[n]] && b == b[..n] + [b[n]];
    }
  }

  /** An ISO date such as "2024-01-01" is refused. */
  lemma IsoDateRefused()
    ensures Parse("2024-01-01").Err?
  {
    assert Value("20") == 20;
  }
}
