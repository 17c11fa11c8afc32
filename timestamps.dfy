/** Points in time as the tool sees them: `parse_time` (the `-moded` values),
    the comparison used by the time filter, and `time_string` (the report
    column). */
module Timestamps {

  import opened Common

  /** A naive `datetime.datetime`; fields compare lexicographically. */
  datatype DateTime = DateTime(year: int, month: int, day: int,
                               hour: int, minute: int, second: int, micro: int)

  /** `a <= b` on naive datetimes. */
  predicate Le(a: DateTime, b: DateTime) {
    if a.year != b.year then a.year < b.year
    else if a.month != b.month then a.month < b.month
    else if a.day != b.day then a.day < b.day
    else if a.hour != b.hour then a.hour < b.hour
    else if a.minute != b.minute then a.minute < b.minute
    else if a.second != b.second then a.second < b.second
    else a.micro <= b.micro
  }

  predicate IsLeap(y: int) {
    y % 4 == 0 && (y % 100 != 0 || y % 400 == 0)
  }

  function DaysIn(y: int, m: int): (d: int)
    ensures 28 <= d <= 31
  {
    if m == 2 then (if IsLeap(y) then 29 else 28)
    else if m == 4 || m == 6 || m == 9 || m == 11 then 30
    else 31
  }

  /** The values `datetime.datetime(...)` accepts (with a 4-digit year). */
  predicate Valid(t: DateTime) {
    1 <= t.year <= 9999 && 1 <= t.month <= 12 && 1 <= t.day <= DaysIn(t.year, t.month) &&
    0 <= t.hour < 24 && 0 <= t.minute < 60 && 0 <= t.second < 60 && 0 <= t.micro < 1000000
  }

  /** The six formats of `parse_time`, from `%Y` to `%Y-%m-%d:%H:%M:%S`. */
  datatype Precision = Year | Month | Day | Hour | Minute | Second {
    /** How many of the six fields the format supplies. */
    function Fields(): nat {
      match this
      case Year => 1
      case Month => 2
      case Day => 3
      case Hour => 4
      case Minute => 5
      case Second => 6
    }
    /** Length of a string in this format: each field after the year is a
        separator and two characters. */
    function Width(): nat {
      4 + 3 * (Fields() - 1)
    }
  }

  /** The length dispatch of `parse_time`. */
  function PrecisionOf(len: nat): (r: Option<Precision>)
    ensures r.Some? <==> len in {4, 7, 10, 13, 16, 19}
    ensures r.Some? ==> r.value.Width() == len
  {
    if len == 4 then Some(Year)
    else if len == 7 then Some(Month)
    else if len == 10 then Some(Day)
    else if len == 13 then Some(Hour)
    else if len == 16 then Some(Minute)
    else if len == 19 then Some(Second)
    else None
  }

  /** `parse_time` returns `None` (NoFormat), a datetime (Time), or `strptime`
      raises `ValueError` (Invalid). */
  datatype TimeResult = NoFormat | Invalid | Time(t: DateTime)

  predicate IsDigit(c: char) { '0' <= c <= '9' }

  function DigitValue(c: char): int requires IsDigit(c) { c as int - '0' as int }

  function DigitChar(d: int): char requires 0 <= d < 10 { ('0' as int + d) as char }

  /** Two digits `d1 d2` at position `i`. */
  predicate TwoDigits(s: string, i: nat) requires i + 2 <= |s| {
    IsDigit(s[i]) && IsDigit(s[i + 1])
  }

  function TwoValue(s: string, i: nat): int
    requires i + 2 <= |s| && TwoDigits(s, i)
  {
    10 * DigitValue(s[i]) + DigitValue(s[i + 1])
  }

  /** The `%d` directive also accepts a space followed by one digit. */
  predicate DayChars(s: string, i: nat) requires i + 2 <= |s| {
    TwoDigits(s, i) || (s[i] == ' ' && IsDigit(s[i + 1]))
  }

  function DayValue(s: string, i: nat): int
    requires i + 2 <= |s| && DayChars(s, i)
  {
    if s[i] == ' ' then DigitValue(s[i + 1]) else TwoValue(s, i)
  }

  /** The characters of `s` have the shape the format's regular expression
      admits: four year digits, then for each further field its separator
      (`-`, `-`, `:`, `:`, `:`) and two characters. Because the length is
      fixed by the format, no field can use its one-character form. */
  predicate Shaped(s: string, p: Precision)
    requires |s| == p.Width()
  {
    IsDigit(s[0]) && IsDigit(s[1]) && IsDigit(s[2]) && IsDigit(s[3]) &&
    (p.Fields() >= 2 ==> s[4] == '-' && TwoDigits(s, 5)) &&
    (p.Fields() >= 3 ==> s[7] == '-' && DayChars(s, 8)) &&
    (p.Fields() >= 4 ==> s[10] == ':' && TwoDigits(s, 11)) &&
    (p.Fields() >= 5 ==> s[13] == ':' && TwoDigits(s, 14)) &&
    (p.Fields() >= 6 ==> s[16] == ':' && TwoDigits(s, 17))
  }

  /** The datetime a shaped string denotes; fields the format does not supply
      take their least value. */
  function FieldsOf(s: string, p: Precision): DateTime
    requires |s| == p.Width() && Shaped(s, p)
  {
    DateTime(
      1000 * DigitValue(s[0]) + 100 * DigitValue(s[1]) + 10 * DigitValue(s[2]) + DigitValue(s[3]),
      if p.Fields() >= 2 then TwoValue(s, 5) else 1,
      if p.Fields() >= 3 then DayValue(s, 8) else 1,
      if p.Fields() >= 4 then TwoValue(s, 11) else 0,
      if p.Fields() >= 5 then TwoValue(s, 14) else 0,
      if p.Fields() >= 6 then TwoValue(s, 17) else 0,
      0)
  }

  /** `datetime.strptime(s, fmt)`: a string of the wrong shape, or one whose
      values `datetime` refuses (year 0, month 13, 30 February, second 60),
      raises. */
  function Strptime(s: string, p: Precision): TimeResult
    requires |s| == p.Width()
  {
    if Shaped(s, p) && Valid(FieldsOf(s, p)) then Time(FieldsOf(s, p)) else Invalid
  }

  /** The datetime `t` with the fields finer than `p` reset to their least
      value. */
  function Truncate(t: DateTime, p: Precision): DateTime {
    DateTime(t.year,
             if p.Fields() >= 2 then t.month else 1,
             if p.Fields() >= 3 then t.day else 1,
             if p.Fields() >= 4 then t.hour else 0,
             if p.Fields() >= 5 then t.minute else 0,
             if p.Fields() >= 6 then t.second else 0,
             0)
  }

  /** `parse_time`: the length alone selects the format; only a length outside
      {4, 7, 10, 13, 16, 19} gives `None`; a result is a valid datetime whose
      unsupplied fields are at their least value. */
  function ParseTime(s: string): (r: TimeResult)
    ensures r == NoFormat <==> |s| !in {4, 7, 10, 13, 16, 19}
    ensures r.Time? ==> Valid(r.t) && r.t == Truncate(r.t, PrecisionOf(|s|).value)
  {
    match PrecisionOf(|s|)
    case None => NoFormat
    case Some(p) => Strptime(s, p)
  }

  /** Zero-padded decimal rendering of `n` in `w` digits. */
  function Pad(n: nat, w: nat): (r: string)
    ensures |r| == w
    ensures forall i | 0 <= i < |r| :: IsDigit(r[i])
  {
    if w == 0 then "" else Pad(n / 10, w - 1) + [DigitChar(n % 10)]
  }

  /** The separators before the month, day, hour, minute and second. */
  const Separators: string := "--:::"

  function FieldValues(t: DateTime): seq<int> {
    [t.month, t.day, t.hour, t.minute, t.second]
  }

  /** The first `n` fields after the year, each with its separator. */
  function FieldsText(t: DateTime, n: nat): (r: string)
    requires Valid(t) && n <= 5
    ensures |r| == 3 * n
  {
    if n == 0 then "" else FieldsText(t, n - 1) + [Separators[n - 1]] + Pad(FieldValues(t)[n - 1], 2)
  }

  /** `t` written in the input format of precision `p` (`2016-06-01:09`, ...). */
  function TimeText(t: DateTime, p: Precision): (r: string)
    requires Valid(t)
    ensures |r| == p.Width()
  {
    Pad(t.year, 4) + FieldsText(t, p.Fields() - 1)
  }

  lemma PadDigits2(n: nat)
    requires n < 100
    ensures 10 * DigitValue(Pad(n, 2)[0]) + DigitValue(Pad(n, 2)[1]) == n
  {
    assert Pad(n, 2) == Pad(n / 10, 1) + [DigitChar(n % 10)];
    assert Pad(n / 10, 1) == Pad(n / 100, 0) + [DigitChar((n / 10) % 10)];
  }

  lemma PadDigits4(n: nat)
    requires n < 10000
    ensures 1000 * DigitValue(Pad(n, 4)[0]) + 100 * DigitValue(Pad(n, 4)[1]) +
            10 * DigitValue(Pad(n, 4)[2]) + DigitValue(Pad(n, 4)[3]) == n
  {
    var a := Pad(n / 100, 2);
    assert Pad(n, 4) == Pad(n / 10, 3) + [DigitChar(n % 10)];
    assert Pad(n / 10, 3) == a + [DigitChar((n / 10) % 10)];
    PadDigits2(n / 100);
    assert Pad(n, 4) == a + [DigitChar((n / 10) % 10), DigitChar(n % 10)];
  }

  /** Field `j` of the first `n` sits at `3 * j`: its separator, then its
      two digits. */
  lemma {:induction false} FieldsTextAt(t: DateTime, n: nat, j: nat)
    requires Valid(t) && j < n <= 5
    ensures var f, v := FieldsText(t, n), Pad(FieldValues(t)[j], 2);
            f[3 * j] == Separators[j] && f[3 * j + 1] == v[0] && f[3 * j + 2] == v[1]
  {
    var a := FieldsText(t, n - 1);
    var b := [Separators[n - 1]] + Pad(FieldValues(t)[n - 1], 2);
    assert FieldsText(t, n) == a + b;
    if j == n - 1 {
      assert (a + b)[|a|] == b[0] && (a + b)[|a| + 1] == b[1] && (a + b)[|a| + 2] == b[2];
    } else {
      FieldsTextAt(t, n - 1, j);
      assert (a + b)[3 * j] == a[3 * j] && (a + b)[3 * j + 1] == a[3 * j + 1] && (a + b)[3 * j + 2] == a[3 * j + 2];
    }
  }

  /** Field `j` after the year, with its separator, in the text of `t`:
      two digits that read back as the field's value. */
  lemma TimeTextField(t: DateTime, p: Precision, j: nat)
    requires Valid(t) && j + 1 < p.Fields()
    ensures var s := TimeText(t, p);
            s[4 + 3 * j] == Separators[j] && TwoDigits(s, 5 + 3 * j) &&
            TwoValue(s, 5 + 3 * j) == FieldValues(t)[j]
  {
    var s, y, f := TimeText(t, p), Pad(t.year, 4), FieldsText(t, p.Fields() - 1);
    FieldsTextAt(t, p.Fields() - 1, j);
    assert s == y + f;
    assert s[4 + 3 * j] == f[3 * j] && s[5 + 3 * j] == f[3 * j + 1] && s[6 + 3 * j] == f[3 * j + 2];
    PadDigits2(FieldValues(t)[j]);
  }

  /** The year in the text of `t`: four digits that read back as the year. */
  lemma TimeTextYear(t: DateTime, p: Precision)
    requires Valid(t)
    ensures var s := TimeText(t, p);
            IsDigit(s[0]) && IsDigit(s[1]) && IsDigit(s[2]) && IsDigit(s[3]) &&
            1000 * DigitValue(s[0]) + 100 * DigitValue(s[1]) + 10 * DigitValue(s[2]) + DigitValue(s[3]) == t.year
  {
    var s, y := TimeText(t, p), Pad(t.year, 4);
    assert s == y + FieldsText(t, p.Fields() - 1);
    assert s[0] == y[0] && s[1] == y[1] && s[2] == y[2] && s[3] == y[3];
    PadDigits4(t.year);
  }

  /** Round trip: writing a valid datetime in any of the six formats and
      parsing it back gives the datetime truncated to that precision. */
  lemma ParseTimeText(t: DateTime, p: Precision)
    requires Valid(t)
    ensures ParseTime(TimeText(t, p)) == Time(Truncate(t, p))
  {
    var s := TimeText(t, p);
    TimeTextYear(t, p);
    if p.Fields() >= 2 { TimeTextField(t, p, 0); }
    if p.Fields() >= 3 { TimeTextField(t, p, 1); }
    if p.Fields() >= 4 { TimeTextField(t, p, 2); }
    if p.Fields() >= 5 { TimeTextField(t, p, 3); }
    if p.Fields() >= 6 { TimeTextField(t, p, 4); }
    PrecisionOfWidth(p);
    assert Shaped(s, p);
    assert FieldsOf(s, p) == Truncate(t, p);
  }

  lemma PrecisionOfWidth(p: Precision)
    ensures PrecisionOf(p.Width()) == Some(p)
  {
  }

  /** Every parsed bound lies at or before any datetime of the same prefix:
      a year-only `before` bound means the first instant of that year. */
  lemma {:induction false} ParsedIsFirstInstant(s: string, u: DateTime)
    requires ParseTime(s).Time?
    requires Truncate(u, PrecisionOf(|s|).value) == ParseTime(s).t
    requires u.micro >= 0 && u.second >= 0 && u.minute >= 0 && u.hour >= 0 && u.day >= 1 && u.month >= 1
    ensures Le(ParseTime(s).t, u)
  {
  }

  /** `time_string`: `%Y-%m-%d %H:%M:%S.%f` with the last three digits of the
      microseconds cut off. */
  function TimeString(t: DateTime): (r: string)
    requires Valid(t)
    ensures |r| == 23
    ensures r[4] == '-' && r[7] == '-' && r[10] == ' ' && r[13] == ':' && r[16] == ':' && r[19] == '.'
    ensures forall i | 0 <= i < |r| :: r[i] != '\t'
  {
    Pad(t.year, 4) + "-" + Pad(t.month, 2) + "-" + Pad(t.day, 2) + " " +
    Pad(t.hour, 2) + ":" + Pad(t.minute, 2) + ":" + Pad(t.second, 2) + "." +
    Pad(t.micro / 1000, 3)
  }
}
