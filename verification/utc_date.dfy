/** UTC calendar arithmetic for the proleptic Gregorian calendar with
    astronomical year numbering (year 0 exists, years before it are negative),
    and the `Y-m-d\TH:i:sp` rendering of an instant in the UTC zone, where the
    `p` offset prints as `Z`. Instants are integer seconds since
    1970-01-01T00:00:00Z. */
module UtcDate {
  import opened Wrappers
  import opened Decimal

  const SecondsPerDay := 86400
  /** Days in one 400-year cycle of the Gregorian calendar. */
  const DaysPerEra := 146097
  /** Days from 0000-03-01 to 1970-01-01. */
  const EpochShift := 719468

  /** A broken-down UTC date and time of day. */
  datatype Civil = Civil(year: int, month: int, day: int, hour: int, minute: int, second: int)

  predicate IsLeapYear(y: int) {
    y % 4 == 0 && (y % 100 != 0 || y % 400 == 0)
  }

  function DaysInMonth(y: int, m: int): int
    requires 1 <= m <= 12
  {
    if m == 2 then (if IsLeapYear(y) then 29 else 28)
    else if m == 4 || m == 6 || m == 9 || m == 11 then 30
    else 31
  }

  /** A real calendar date and time of day (no leap seconds). */
  predicate Valid(c: Civil) {
    && 1 <= c.month <= 12
    && 1 <= c.day <= DaysInMonth(c.year, c.month)
    && 0 <= c.hour < 24
    && 0 <= c.minute < 60
    && 0 <= c.second < 60
  }

  // Within a 400-year era, years are counted from March 1 so that the leap
  // day is the last day of its year; months are counted from March as 0..11.

  /** Days of the era before year-of-era `y` begins. */
  function DaysBeforeYear(y: int): int
    requires 0 <= y <= 400
  {
    365 * y + y / 4 - y / 100 + y / 400
  }

  lemma DaysBeforeSplit(c: int, q: int, a: int)
    requires 0 <= c <= 3 && 0 <= q <= 24 && 0 <= a <= 3
    ensures DaysBeforeYear(100 * c + 4 * q + a) == 36524 * c + 1461 * q + 365 * a
  {
    var y := 100 * c + 4 * q + a;
    assert y / 4 == 25 * c + q;
    assert y / 100 == c;
    assert y / 400 == 0;
  }

  /** The March-based year of the era holding day-of-era `doe`. */
  function YearOfEra(doe: int): (y: int)
    requires 0 <= doe < DaysPerEra
    ensures 0 <= y < 400
    ensures DaysBeforeYear(y) <= doe < DaysBeforeYear(y + 1)
  {
    // centuries, then four-year groups, then single years
    var c := if doe / 36524 < 3 then doe / 36524 else 3;
    var rem := doe - 36524 * c;
    var q := rem / 1461;
    var r := rem - 1461 * q;
    var a := if r / 365 < 3 then r / 365 else 3;
    DaysBeforeSplit(c, q, a);
    if a < 3 then DaysBeforeSplit(c, q, a + 1); 100 * c + 4 * q + a
    else if q < 24 then DaysBeforeSplit(c, q + 1, 0); 100 * c + 4 * q + a
    else if c < 3 then DaysBeforeSplit(c + 1, 0, 0); 100 * c + 4 * q + a
    else 100 * c + 4 * q + a
  }

  /** The March-based year `y` of an era is 366 days long exactly when the
      calendar year in which it ends is a leap year. */
  lemma YearLength(era: int, y: int)
    requires 0 <= y < 400
    ensures DaysBeforeYear(y + 1) - DaysBeforeYear(y) == if IsLeapYear(era * 400 + y + 1) then 366 else 365
  {
    var Y := era * 400 + y + 1;
    ShiftMod(era * 100, y + 1, 4);
    ShiftMod(era * 4, y + 1, 100);
    ShiftMod(era, y + 1, 400);
    assert IsLeapYear(Y) == IsLeapYear(y + 1);
    LeapStep(y);
  }

  lemma ShiftMod(k: int, r: int, n: int)
    requires n == 4 || n == 100 || n == 400
    ensures (n * k + r) % n == r % n
  {
  }

  lemma LeapStep(y: int)
    requires 0 <= y < 400
    ensures DaysBeforeYear(y + 1) - DaysBeforeYear(y) == if IsLeapYear(y + 1) then 366 else 365
  {
    var Y := y + 1;
    var s4 := DivStep(Y, 4);
    var s100 := DivStep(Y, 100);
    var s400 := DivStep(Y, 400);
    assert DaysBeforeYear(Y) - DaysBeforeYear(y) == 365 + s4 - s100 + s400;
    if Y % 400 == 0 {
      assert Y == 400;
    } else if Y % 100 == 0 {
      assert Y == 100 || Y == 200 || Y == 300;
    } else if Y % 4 == 0 {
    }
  }

  /** Whether a multiple of `n` is reached in the step from `y - 1` to `y`. */
  lemma DivStep(y: int, n: int) returns (step: int)
    requires n == 4 || n == 100 || n == 400
    requires 1 <= y
    ensures step == y / n - (y - 1) / n
    ensures step == if y % n == 0 then 1 else 0
  {
    var q := y / n;
    var r := y % n;
    if r == 0 {
      ShiftDiv(q - 1, n - 1, n);
      assert y - 1 == n * (q - 1) + (n - 1);
    } else {
      ShiftDiv(q, r - 1, n);
      assert y - 1 == n * q + (r - 1);
    }
    step := y / n - (y - 1) / n;
  }

  /** Days of the March-based year before March-based month `mp` begins. */
  function DaysBeforeMonth(mp: int): int
    requires 0 <= mp <= 12
  {
    (153 * mp + 2) / 5
  }

  function MonthOfYear(doy: int): (mp: int)
    requires 0 <= doy < 366
    ensures 0 <= mp < 12
    ensures DaysBeforeMonth(mp) <= doy < DaysBeforeMonth(mp + 1)
  {
    (5 * doy + 2) / 153
  }

  /** Month lengths from March on: 31, 30, 31, 30, 31, 31, 30, 31, 30, 31, 31. */
  lemma MonthLength(mp: int)
    requires 0 <= mp < 12
    ensures mp < 11 ==> DaysBeforeMonth(mp + 1) - DaysBeforeMonth(mp) == DaysInMonth(0, if mp < 10 then mp + 3 else mp - 9)
  {
  }

  lemma ShiftDiv(k: int, r: int, n: int)
    requires n == 4 || n == 100 || n == 400 || n == DaysPerEra || n == SecondsPerDay
    requires 0 <= r < n
    ensures (n * k + r) / n == k && (n * k + r) % n == r
  {
  }

  /** The date of day-of-era `doe` in era `era`, as (year, month, day). */
  function DateInEra(era: int, doe: int): (int, int, int)
    requires 0 <= doe < DaysPerEra
  {
    var yoe := YearOfEra(doe);
    var doy := doe - DaysBeforeYear(yoe);
    LeapStep(yoe);
    var mp := MonthOfYear(doy);
    var m := if mp < 10 then mp + 3 else mp - 9;
    (era * 400 + yoe + (if m <= 2 then 1 else 0), m, doy - DaysBeforeMonth(mp) + 1)
  }

  /** The date `days` days after 1970-01-01, as (year, month, day). */
  function DateOfDays(days: int): (int, int, int) {
    var z := days + EpochShift;
    DateInEra(z / DaysPerEra, z % DaysPerEra)
  }

  /** Breaks an instant into its UTC date and time of day. */
  function ToCivil(ts: int): Civil {
    var sod := ts % SecondsPerDay;
    var (y, m, d) := DateOfDays(ts / SecondsPerDay);
    Civil(y, m, d, sod / 3600, sod % 3600 / 60, sod % 60)
  }

  /** Days from 1970-01-01 to the given date. */
  function DaysOfDate(y: int, m: int, d: int): int
    requires 1 <= m <= 12
  {
    var y' := if m <= 2 then y - 1 else y;
    var mp := if m > 2 then m - 3 else m + 9;
    (y' / 400) * DaysPerEra + DaysBeforeYear(y' % 400) + DaysBeforeMonth(mp) + d - 1 - EpochShift
  }

  /** The instant of a UTC date and time of day. */
  function FromCivil(c: Civil): int
    requires 1 <= c.month <= 12
  {
    DaysOfDate(c.year, c.month, c.day) * SecondsPerDay + c.hour * 3600 + c.minute * 60 + c.second
  }

  lemma DateInEraValid(era: int, doe: int)
    requires 0 <= doe < DaysPerEra
    ensures var (y, m, d) := DateInEra(era, doe);
      1 <= m <= 12 && 1 <= d <= DaysInMonth(y, m) &&
      DaysOfDate(y, m, d) == era * DaysPerEra + doe - EpochShift
  {
    var yoe := YearOfEra(doe);
    var doy := doe - DaysBeforeYear(yoe);
    YearLength(era, yoe);
    var mp := MonthOfYear(doy);
    MonthLength(mp);
    ShiftDiv(era, yoe, 400);
  }

  /** Every instant breaks into a real date and time of day. */
  lemma ToCivilValid(ts: int)
    ensures Valid(ToCivil(ts))
  {
    var z := ts / SecondsPerDay + EpochShift;
    DateInEraValid(z / DaysPerEra, z % DaysPerEra);
  }

  /** Reassembling the broken-down form recovers the instant. */
  lemma FromToCivil(ts: int)
    ensures Valid(ToCivil(ts)) && FromCivil(ToCivil(ts)) == ts
  {
    var days := ts / SecondsPerDay;
    var sod := ts % SecondsPerDay;
    var z := days + EpochShift;
    DateInEraValid(z / DaysPerEra, z % DaysPerEra);
    var c := ToCivil(ts);
    assert DaysOfDate(c.year, c.month, c.day) == days by {
      assert z == DaysPerEra * (z / DaysPerEra) + z % DaysPerEra;
    }
    TimeOfDay(sod);
  }

  lemma TimeOfDay(sod: int)
    requires 0 <= sod < SecondsPerDay
    ensures (sod / 3600) * 3600 + (sod % 3600 / 60) * 60 + sod % 60 == sod
  {
  }

  lemma DaysBeforeYearMonotone(a: int, b: int)
    requires 0 <= a <= b <= 400
    ensures DaysBeforeYear(a) <= DaysBeforeYear(b)
  {
  }

  lemma YearOfEraUnique(doe: int, y: int)
    requires 0 <= doe < DaysPerEra && 0 <= y < 400
    requires DaysBeforeYear(y) <= doe < DaysBeforeYear(y + 1)
    ensures YearOfEra(doe) == y
  {
    var r := YearOfEra(doe);
    if r < y {
      DaysBeforeYearMonotone(r + 1, y);
    } else if r > y {
      DaysBeforeYearMonotone(y + 1, r);
    }
  }

  lemma MonthOfYearUnique(doy: int, mp: int)
    requires 0 <= doy < 366 && 0 <= mp < 12
    requires DaysBeforeMonth(mp) <= doy < DaysBeforeMonth(mp + 1)
    ensures MonthOfYear(doy) == mp
  {
  }

  /** Breaking down the instant of a real date and time gives it back. */
  lemma ToFromCivil(c: Civil)
    requires Valid(c)
    ensures ToCivil(FromCivil(c)) == c
  {
    var days := DaysOfDate(c.year, c.month, c.day);
    var sod := c.hour * 3600 + c.minute * 60 + c.second;
    DateRoundTrip(c.year, c.month, c.day);
    ShiftDiv(days, sod, SecondsPerDay);
    TimeOfDayParts(c.hour, c.minute, c.second);
  }

  /** Counting the days of a real date and converting back gives the date. */
  lemma DateRoundTrip(y: int, m: int, d: int)
    requires 1 <= m <= 12 && 1 <= d <= DaysInMonth(y, m)
    ensures DateOfDays(DaysOfDate(y, m, d)) == (y, m, d)
  {
    var y' := if m <= 2 then y - 1 else y;
    var era := y' / 400;
    var yoe := y' % 400;
    var mp := if m > 2 then m - 3 else m + 9;
    assert y' == 400 * era + yoe;
    assert (if mp < 10 then mp + 3 else mp - 9) == m;
    assert era * 400 + yoe + (if mp >= 10 then 1 else 0) == y;
    DateInEraOf(era, yoe, mp, d);
    var doe := DaysBeforeYear(yoe) + DaysBeforeMonth(mp) + d - 1;
    assert DaysOfDate(y, m, d) + EpochShift == DaysPerEra * era + doe;
    ShiftDiv(era, doe, DaysPerEra);
  }

  /** Day `d` of March-based month `mp` of year-of-era `yoe` lies in the era
      and is found again by DateInEra. */
  lemma DateInEraOf(era: int, yoe: int, mp: int, d: int)
    requires 0 <= yoe < 400 && 0 <= mp < 12
    requires 1 <= d <= DaysInMonth(era * 400 + yoe + (if mp >= 10 then 1 else 0), if mp < 10 then mp + 3 else mp - 9)
    ensures var doe := DaysBeforeYear(yoe) + DaysBeforeMonth(mp) + d - 1;
      && 0 <= doe < DaysPerEra
      && DateInEra(era, doe) == (era * 400 + yoe + (if mp >= 10 then 1 else 0), if mp < 10 then mp + 3 else mp - 9, d)
  {
    var doe := DayOfEraParts(era, yoe, mp, d);
    DateInEraOfParts(era, doe, yoe, mp);
  }

  /** The day of the era of a real date, and the year and month it falls in. */
  lemma DayOfEraParts(era: int, yoe: int, mp: int, d: int) returns (doe: int)
    requires 0 <= yoe < 400 && 0 <= mp < 12
    requires 1 <= d <= DaysInMonth(era * 400 + yoe + (if mp >= 10 then 1 else 0), if mp < 10 then mp + 3 else mp - 9)
    ensures doe == DaysBeforeYear(yoe) + DaysBeforeMonth(mp) + d - 1
    ensures 0 <= doe < DaysPerEra && YearOfEra(doe) == yoe
    ensures 0 <= doe - DaysBeforeYear(yoe) < 366 && MonthOfYear(doe - DaysBeforeYear(yoe)) == mp
  {
    var doy := DaysBeforeMonth(mp) + d - 1;
    DayOfYearBound(era, yoe, mp, d);
    LeapStep(yoe);
    DaysBeforeYearMonotone(yoe + 1, 400);
    doe := DaysBeforeYear(yoe) + doy;
    YearOfEraUnique(doe, yoe);
    MonthOfYearUnique(doy, mp);
  }

  lemma DateInEraOfParts(era: int, doe: int, yoe: int, mp: int)
    requires 0 <= doe < DaysPerEra && YearOfEra(doe) == yoe
    requires 0 <= doe - DaysBeforeYear(yoe) < 366 && MonthOfYear(doe - DaysBeforeYear(yoe)) == mp
    ensures DateInEra(era, doe) == (era * 400 + yoe + (if mp >= 10 then 1 else 0), if mp < 10 then mp + 3 else mp - 9,
                                    doe - DaysBeforeYear(yoe) - DaysBeforeMonth(mp) + 1)
  {
    var doy := doe - DaysBeforeYear(yoe);
    var m := if mp < 10 then mp + 3 else mp - 9;
    assert (m <= 2) == (mp >= 10);
    assert DateInEra(era, doe) == (era * 400 + yoe + (if m <= 2 then 1 else 0), m, doy - DaysBeforeMonth(mp) + 1);
  }

  /** The day-of-year of a real date falls inside its March-based year. */
  lemma DayOfYearBound(era: int, yoe: int, mp: int, d: int)
    requires 0 <= yoe < 400 && 0 <= mp < 12
    requires 1 <= d <= DaysInMonth(era * 400 + yoe + (if mp >= 10 then 1 else 0), if mp < 10 then mp + 3 else mp - 9)
    ensures 0 <= DaysBeforeMonth(mp) + d - 1 < DaysBeforeYear(yoe + 1) - DaysBeforeYear(yoe)
    ensures DaysBeforeMonth(mp) + d - 1 < DaysBeforeMonth(mp + 1)
  {
    YearLength(era, yoe);
    MonthLength(mp);
  }

  lemma TimeOfDayParts(h: int, m: int, s: int)
    requires 0 <= h < 24 && 0 <= m < 60 && 0 <= s < 60
    ensures var sod := h * 3600 + m * 60 + s;
      sod / 3600 == h && sod % 3600 / 60 == m && sod % 60 == s
  {
  }

  /** A two-digit, zero-padded field (`m`, `d`, `H`, `i`, `s`). */
  function TwoDigits(n: int): (s: string)
    requires 0 <= n < 100
    ensures |s| == 2 && AllDigits(s)
    ensures ReadTwoDigits(s[0], s[1]) == Some(n)
  {
    DigitCharValue(n / 10);
    DigitCharValue(n % 10);
    [DigitChar(n / 10), DigitChar(n % 10)]
  }

  function ReadTwoDigits(a: char, b: char): Option<int> {
    if IsDigit(a) && IsDigit(b) then Some(DigitValue(a) * 10 + DigitValue(b)) else None
  }

  /** The `Y` field: at least four digits, with a leading '-' before year 0. */
  function YearText(y: int): (s: string)
    ensures 4 <= |s| && ParseInt(s) == Some(y)
    ensures (s[0] == '-') <==> y < 0
    ensures var d := if y < 0 then s[1..] else s;
      AllDigits(d) && 4 <= |d| && (|d| > 4 ==> d[0] != '0')
    ensures 0 <= y <= 9999 ==> |s| == 4 && AllDigits(s)
  {
    if y < 0 then
      var d := PadZeros(Digits(-y), 4);
      assert ("-" + d)[1..] == d;
      "-" + d
    else
      ShortYear(y);
      PadZeros(Digits(y), 4)
  }

  lemma ShortYear(y: nat)
    ensures y <= 9999 ==> |Digits(y)| <= 4
  {
    if y <= 9999 {
      assert Pow10(4) == 10000;
      DigitsLength(y, 4);
    }
  }

  /** The `Y-m-d\TH:i:sp` rendering of an instant in the UTC zone, for example
      "2014-01-01T00:00:00Z". Everything after the year has a fixed width of
      sixteen characters. */
  function Format(ts: int): (s: string)
    ensures 20 <= |s| && s[|s| - 1] == 'Z' && s[|s| - 10] == 'T'
    ensures 0 <= ToCivil(ts).year <= 9999 ==> |s| == 20
  {
    var c := ToCivil(ts);
    ToCivilValid(ts);
    var t := TimeTail(c);
    YearText(c.year) + t
  }

  function TimeTail(c: Civil): (t: string)
    requires Valid(c)
    ensures |t| == 16 && t[6] == 'T' && t[15] == 'Z'
  {
    var mo := TwoDigits(c.month);
    var d := TwoDigits(c.day);
    var h := TwoDigits(c.hour);
    var mi := TwoDigits(c.minute);
    var se := TwoDigits(c.second);
    ['-', mo[0], mo[1], '-', d[0], d[1], 'T', h[0], h[1], ':', mi[0], mi[1], ':', se[0], se[1], 'Z']
  }

  /** Reads a string of the form Format produces back into an instant; fails
      on anything else, including dates and times that do not exist. */
  function Parse(s: string): (r: Option<int>)
  {
    if |s| < 17 then None
    else
      var t := s[|s| - 16..];
      if t[0] != '-' || t[3] != '-' || t[6] != 'T' || t[9] != ':' || t[12] != ':' || t[15] != 'Z' then None
      else
        var year :- ParseInt(s[..|s| - 16]);
        var month :- ReadTwoDigits(t[1], t[2]);
        var day :- ReadTwoDigits(t[4], t[5]);
        var hour :- ReadTwoDigits(t[7], t[8]);
        var minute :- ReadTwoDigits(t[10], t[11]);
        var second :- ReadTwoDigits(t[13], t[14]);
        var c := Civil(year, month, day, hour, minute, second);
        if Valid(c) then Some(FromCivil(c)) else None
  }

  /** Parsing a rendered instant gives the instant back. */
  lemma ParseFormat(ts: int)
    ensures Parse(Format(ts)) == Some(ts)
  {
    var c := ToCivil(ts);
    FromToCivil(ts);
    ParseParts(c);
  }

  /** Parse reads the year and the fixed-width tail back into the date and
      time they were rendered from. */
  lemma ParseParts(c: Civil)
    requires Valid(c)
    ensures Parse(YearText(c.year) + TimeTail(c)) == Some(FromCivil(c))
  {
    var y := YearText(c.year);
    var t := TimeTail(c);
    var s := y + t;
    assert s[..|s| - 16] == y;
    assert s[|s| - 16..] == t;
    TailFields(c);
  }

  /** The separators of the tail, and its two-digit fields read back. */
  lemma TailFields(c: Civil)
    requires Valid(c)
    ensures var t := TimeTail(c);
      && t[0] == '-' && t[3] == '-' && t[6] == 'T' && t[9] == ':' && t[12] == ':' && t[15] == 'Z'
      && ReadTwoDigits(t[1], t[2]) == Some(c.month)
      && ReadTwoDigits(t[4], t[5]) == Some(c.day)
      && ReadTwoDigits(t[7], t[8]) == Some(c.hour)
      && ReadTwoDigits(t[10], t[11]) == Some(c.minute)
      && ReadTwoDigits(t[13], t[14]) == Some(c.second)
  {
  }

  /** Different instants render differently. */
  lemma FormatInjective(a: int, b: int)
    requires Format(a) == Format(b)
    ensures a == b
  {
    ParseFormat(a);
    ParseFormat(b);
  }

  /** Whatever Parse accepts is a real date and time, and names the instant
      whose broken-down form is exactly the one read. */
  lemma ParseSound(s: string)
    requires Parse(s).Some?
    ensures ToCivil(Parse(s).value) == ReadFields(s)
  {
    ToFromCivil(ReadFields(s));
  }

  function ReadFields(s: string): (c: Civil)
    requires Parse(s).Some?
    ensures Valid(c) && Parse(s) == Some(FromCivil(c))
  {
    var t := s[|s| - 16..];
    Civil(ParseInt(s[..|s| - 16]).value,
          ReadTwoDigits(t[1], t[2]).value, ReadTwoDigits(t[4], t[5]).value,
          ReadTwoDigits(t[7], t[8]).value, ReadTwoDigits(t[10], t[11]).value,
          ReadTwoDigits(t[13], t[14]).value)
  }

  /** The first instant of 2014 in UTC, and the same wall-clock time two
      hours east of UTC, which is still 2013 in UTC. */
  lemma FormatExamples(newYear: int)
    requires newYear == 1388534400
    ensures Format(newYear) == "2014-01-01T00:00:00Z"
    ensures Format(newYear - 7200) == "2013-12-31T22:00:00Z"
  {
    NewYearFormat(newYear);
    EveFormat(newYear - 7200);
  }

  lemma NewYearFormat(ts: int)
    requires ts == 1388534400
    ensures Format(ts) == "2014-01-01T00:00:00Z"
  {
    var a := Civil(2014, 1, 1, 0, 0, 0);
    NewYearInstant();
    FormatOfCivil(a);
    NewYearText();
  }

  lemma EveFormat(ts: int)
    requires ts == 1388534400 - 7200
    ensures Format(ts) == "2013-12-31T22:00:00Z"
  {
    var b := Civil(2013, 12, 31, 22, 0, 0);
    EveInstant();
    FormatOfCivil(b);
    EveText();
  }

  lemma NewYearText()
    ensures YearText(2014) + TimeTail(Civil(2014, 1, 1, 0, 0, 0)) == "2014-01-01T00:00:00Z"
  {
    YearTextExamples();
    TimeTailExamples();
    Glue("2014", "-01-01T00:00:00Z", "2014-01-01T00:00:00Z");
  }

  lemma EveText()
    ensures YearText(2013) + TimeTail(Civil(2013, 12, 31, 22, 0, 0)) == "2013-12-31T22:00:00Z"
  {
    YearTextExamples();
    TimeTailExamples();
    Glue("2013", "-12-31T22:00:00Z", "2013-12-31T22:00:00Z");
  }

  lemma Glue(a: string, b: string, ab: string)
    requires |ab| == |a| + |b| && ab[..|a|] == a && ab[|a|..] == b
    ensures a + b == ab
  {
    assert ab == ab[..|a|] + ab[|a|..];
  }

  lemma FormatOfCivil(c: Civil)
    requires Valid(c)
    ensures Format(FromCivil(c)) == YearText(c.year) + TimeTail(c)
  {
    ToFromCivil(c);
  }

  lemma NewYearInstant()
    ensures FromCivil(Civil(2014, 1, 1, 0, 0, 0)) == 1388534400
  {
  }

  lemma EveInstant()
    ensures FromCivil(Civil(2013, 12, 31, 22, 0, 0)) == 1388534400 - 7200
  {
  }

  lemma YearTextExamples()
    ensures YearText(2014) == "2014" && YearText(2013) == "2013"
  {
    assert Digits(2) == "2";
    assert Digits(20) == "20";
    assert Digits(201) == "201";
    assert Digits(2014) == "2014";
    assert Digits(2013) == "2013";
  }

  lemma TimeTailExamples()
    ensures TimeTail(Civil(2014, 1, 1, 0, 0, 0)) == "-01-01T00:00:00Z"
    ensures TimeTail(Civil(2013, 12, 31, 22, 0, 0)) == "-12-31T22:00:00Z"
  {
  }
}
