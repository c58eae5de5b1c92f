/**
 * The calendar the weekly report writes dates with: a date is a day number
 * counted from 1970-01-01, shown as chrono's `%Y-%m-%d` (and `NaiveDate`'s
 * `Display`, which writes the same text).
 */
module Calendar {
  import opened Wrappers

  /** A proleptic Gregorian calendar date. */
  datatype CivilDate = CivilDate(year: int, month: int, day: int)

  /** A Gregorian leap year: divisible by 4, and not by 100 unless by 400. */
  predicate IsLeapYear(y: int)
  {
    y % 4 == 0 && (y % 100 != 0 || y % 400 == 0)
  }

  /** The number of days of a month, in a leap year when `leap`. */
  function MonthLength(month: int, leap: bool): int
  {
    if month == 2 then (if leap then 29 else 28)
    else if month == 4 || month == 6 || month == 9 || month == 11 then 30
    else 31
  }

  /** The number of days of `month` in `year`. */
  function DaysInMonth(year: int, month: int): int
  {
    MonthLength(month, IsLeapYear(year))
  }

  /** Eras of 400 years repeat the leap years. */
  lemma LeapShift(y: int, era: int)
    ensures IsLeapYear(y + 400 * era) <==> IsLeapYear(y)
  {
    ShiftRemainder4(y, 100 * era);
    ShiftRemainder100(y, era);
    ShiftRemainder400(y, era);
  }

  lemma ShiftRemainder4(y: int, m: int)
    ensures (y + 4 * m) % 4 == y % 4
  {
  }

  lemma ShiftRemainder100(y: int, era: int)
    ensures (y + 400 * era) % 100 == y % 100
  {
    var m := 4 * era;
    assert y + 400 * era == y + 100 * m;
    ShiftRemainder100By(y, m);
  }

  lemma ShiftRemainder100By(y: int, m: int)
    ensures (y + 100 * m) % 100 == y % 100
  {
  }

  lemma ShiftRemainder400(y: int, era: int)
    ensures (y + 400 * era) % 400 == y % 400
  {
  }

  /** Days from 0000-03-01 to 1970-01-01. */
  const EpochShift := 719468

  /** A day of a 400-year era: the year within the era, and the day within that March-based year. */
  datatype EraDay = EraDay(yoe: int, doy: int)

  /** The number of days in an era before day `doy` of its year `yoe`. */
  function EraDayNumber(e: EraDay): int
  {
    365 * e.yoe + e.yoe / 4 - e.yoe / 100 + e.doy
  }

  /**
   * Splits a day of an era: an era is three centuries of 36524 days and one
   * of 36525, a century 4-year groups of 1461 days (the last of a short
   * century has 1460), and a group three years of 365 days and one of 366.
   */
  function SplitEra(doe: int): (e: EraDay)
    requires 0 <= doe < 146097
    ensures 0 <= e.yoe < 400 && 0 <= e.doy <= 365
    ensures EraDayNumber(e) == doe
  {
    var century := if doe / 36524 < 3 then doe / 36524 else 3;
    var doc := doe - 36524 * century;
    var group := doc / 1461;
    var dog := doc % 1461;
    var yig := if dog / 365 < 3 then dog / 365 else 3;
    var yoe := 100 * century + 4 * group + yig;
    YearOfEraParts(century, group, yig);
    EraDay(yoe, dog - 365 * yig)
  }

  /** Only a year of an era followed by a leap year has a 366th day. */
  lemma SplitEraLastDay(doe: int)
    requires 0 <= doe < 146097
    ensures SplitEra(doe).doy == 365 ==> IsLeapYear(SplitEra(doe).yoe + 1)
  {
    var century := if doe / 36524 < 3 then doe / 36524 else 3;
    var doc := doe - 36524 * century;
    var group := doc / 1461;
    var dog := doc % 1461;
    var yig := if dog / 365 < 3 then dog / 365 else 3;
    LastDayOfGroup(century, doc, group, dog, yig);
  }

  /**
   * The 366th day of a March-based year ends a 4-year group; the year after
   * it is a leap year: a multiple of 4 that is a multiple of 100 only when
   * it closes the era's long century, as year 400 of the era.
   */
  lemma LastDayOfGroup(century: int, doc: int, group: int, dog: int, yig: int)
    requires 0 <= century <= 3 && 0 <= doc && (century < 3 ==> doc < 36524) && doc <= 36524
    requires group == doc / 1461 && dog == doc % 1461
    requires yig == (if dog / 365 < 3 then dog / 365 else 3)
    ensures dog - 365 * yig == 365 ==> IsLeapYear(100 * century + 4 * group + yig + 1)
  {
    if dog - 365 * yig == 365 {
      assert yig == 3 && dog == 1460;
      assert 0 <= group <= 24;
      var y := 100 * century + 4 * group + 4;
      assert y == 4 * (25 * century + group + 1);
      if group == 24 {
        assert doc == 36524;
        assert century == 3 && y == 400;
      } else {
        assert y % 100 == 4 * (group + 1);
      }
    }
  }

  lemma YearOfEraParts(century: int, group: int, yig: int)
    requires 0 <= century <= 3 && 0 <= group <= 24 && 0 <= yig <= 3
    ensures (100 * century + 4 * group + yig) / 4 == 25 * century + group
    ensures (100 * century + 4 * group + yig) / 100 == century
  {
  }

  /** The day of a March-based year that `month`/`day` falls on. */
  function DayOfMarchYear(month: int, day: int): int
  {
    var mp := if month > 2 then month - 3 else month + 9;
    (153 * mp + 2) / 5 + day - 1
  }

  /**
   * The month (1 to 12) and day of day `doy` of a March-based year; only the
   * 366th day, which only a year ending in a leap February has, is 29 February.
   */
  function MonthDay(doy: int): (md: (int, int))
    requires 0 <= doy <= 365
    ensures 1 <= md.0 <= 12 && 1 <= md.1 <= MonthLength(md.0, doy == 365)
    ensures DayOfMarchYear(md.0, md.1) == doy
  {
    var mp := (5 * doy + 2) / 153;
    var month := if mp < 10 then mp + 3 else mp - 9;
    (month, doy - (153 * mp + 2) / 5 + 1)
  }

  /** The calendar date of day `e` of era `era`. */
  function CivilOfEraDay(era: int, e: EraDay): (c: CivilDate)
    requires 0 <= e.doy <= 365
    ensures 1 <= c.month <= 12 && 1 <= c.day <= 31
  {
    var md := MonthDay(e.doy);
    CivilDate(e.yoe + 400 * era + (if md.0 <= 2 then 1 else 0), md.0, md.1)
  }

  /** A day of an era that only a year before a leap year has falls in a month that holds it. */
  lemma CivilOfEraDayInMonth(era: int, e: EraDay)
    requires 0 <= e.doy <= 365 && (e.doy == 365 ==> IsLeapYear(e.yoe + 1))
    ensures CivilOfEraDay(era, e).day <= DaysInMonth(CivilOfEraDay(era, e).year, CivilOfEraDay(era, e).month)
  {
    if e.doy == 365 {
      LeapShift(e.yoe + 1, era);
      assert CivilOfEraDay(era, e).year == e.yoe + 1 + 400 * era;
    }
  }

  /** The calendar date of day number `d`. */
  function CivilFromDays(d: int): (c: CivilDate)
    ensures 1 <= c.month <= 12 && 1 <= c.day <= 31
  {
    var z := d + EpochShift;
    CivilOfEraDay(z / 146097, SplitEra(z % 146097))
  }

  /** Every day number's date is a real date: its day lies within its month, leap years counted. */
  lemma CivilFromDaysInMonth(d: int)
    ensures CivilFromDays(d).day <= DaysInMonth(CivilFromDays(d).year, CivilFromDays(d).month)
  {
    var z := d + EpochShift;
    SplitEraLastDay(z % 146097);
    CivilOfEraDayInMonth(z / 146097, SplitEra(z % 146097));
  }

  /** The day number of a calendar date: the inverse of `CivilFromDays`. */
  function DaysFromCivil(c: CivilDate): int
  {
    var y := c.year - (if c.month <= 2 then 1 else 0);
    var e := EraDay(y % 400, DayOfMarchYear(c.month, c.day));
    (y / 400) * 146097 + EraDayNumber(e) - EpochShift
  }

  lemma EraSplit(yoe: int, era: int)
    requires 0 <= yoe < 400
    ensures (yoe + 400 * era) / 400 == era && (yoe + 400 * era) % 400 == yoe
  {
  }

  /** The day number of the date of a day of an era. */
  lemma EraDayRoundTrip(era: int, e: EraDay)
    requires 0 <= e.yoe < 400 && 0 <= e.doy <= 365
    ensures DaysFromCivil(CivilOfEraDay(era, e)) == era * 146097 + EraDayNumber(e) - EpochShift
  {
    var c := CivilOfEraDay(era, e);
    var y := c.year - (if c.month <= 2 then 1 else 0);
    assert y == e.yoe + 400 * era;
    EraSplit(e.yoe, era);
    assert EraDay(y % 400, DayOfMarchYear(c.month, c.day)) == e;
  }

  /** Turning a day number into a date and back gives the day number again. */
  lemma CivilRoundTrip(d: int)
    ensures DaysFromCivil(CivilFromDays(d)) == d
  {
    var z := d + EpochShift;
    var era, doe := z / 146097, z % 146097;
    assert era * 146097 + doe == z;
    assert CivilFromDays(d) == CivilOfEraDay(era, SplitEra(doe));
    EraDayRoundTrip(era, SplitEra(doe));
  }

  /** Different days are different dates. */
  lemma CivilFromDaysInjective(d1: int, d2: int)
    ensures d1 != d2 ==> CivilFromDays(d1) != CivilFromDays(d2)
  {
    CivilRoundTrip(d1);
    CivilRoundTrip(d2);
  }

  // ----- decimal text -----

  function DigitChar(n: nat): char
    requires n < 10
  {
    "0123456789"[n]
  }

  predicate IsDigit(c: char)
  {
    '0' <= c <= '9'
  }

  /** The decimal digits of `n`, without leading zeros. */
  function DecimalDigits(n: nat): (r: string)
    ensures 1 <= |r| && forall i :: 0 <= i < |r| ==> IsDigit(r[i])
    ensures n < 10 ==> |r| == 1
    ensures n < 100 ==> |r| <= 2
    ensures n < 1000 ==> |r| <= 3
    ensures n < 10000 ==> |r| <= 4
  {
    if n < 10 then [DigitChar(n)] else DecimalDigits(n / 10) + [DigitChar(n % 10)]
  }

  function DigitValue(c: char): nat
    requires IsDigit(c)
  {
    c as int - '0' as int
  }

  /** The number a string of decimal digits denotes. */
  function DigitsValue(s: string): nat
    requires forall i :: 0 <= i < |s| ==> IsDigit(s[i])
  {
    if |s| == 0 then 0
    else 10 * DigitsValue(s[..|s| - 1]) + DigitValue(s[|s| - 1])
  }

  lemma {:induction false} DecimalDigitsValue(n: nat)
    ensures DigitsValue(DecimalDigits(n)) == n
  {
    var r := DecimalDigits(n);
    if n >= 10 {
      DecimalDigitsValue(n / 10);
      assert r[..|r| - 1] == DecimalDigits(n / 10);
    }
  }

  /** `k` zeros. */
  function Zeros(k: nat): (r: string)
    ensures |r| == k && forall i :: 0 <= i < k ==> r[i] == '0'
  {
    seq(k, i => '0')
  }

  /** Leading zeros do not change the number. */
  lemma {:induction false} LeadingZerosValue(z: string, s: string)
    requires forall i :: 0 <= i < |z| ==> z[i] == '0'
    requires forall i :: 0 <= i < |s| ==> IsDigit(s[i])
    ensures DigitsValue(z + s) == DigitsValue(s)
  {
    if |s| == 0 {
      LeadingZerosAlone(z);
      assert z + s == z;
    } else {
      var t := z + s;
      assert t[..|t| - 1] == z + s[..|s| - 1];
      LeadingZerosValue(z, s[..|s| - 1]);
    }
  }

  lemma {:induction false} LeadingZerosAlone(z: string)
    requires forall i :: 0 <= i < |z| ==> z[i] == '0'
    ensures forall i :: 0 <= i < |z| ==> IsDigit(z[i])
    ensures DigitsValue(z) == 0
  {
    if |z| > 0 {
      LeadingZerosAlone(z[..|z| - 1]);
    }
  }

  /** `n` written with at least `width` digits. */
  function Padded(n: nat, width: nat): (r: string)
    ensures forall i :: 0 <= i < |r| ==> IsDigit(r[i])
    ensures DigitsValue(r) == n
    ensures |DecimalDigits(n)| <= width ==> |r| == width
  {
    var digits := DecimalDigits(n);
    var zeros := if |digits| < width then Zeros(width - |digits|) else [];
    DecimalDigitsValue(n);
    LeadingZerosValue(zeros, digits);
    zeros + digits
  }

  /** `%Y`: four digits for years 0 to 9999, otherwise a sign and at least four digits. */
  function YearText(y: int): string
  {
    if 0 <= y <= 9999 then Padded(y, 4)
    else if y < 0 then "-" + Padded(-y, 4)
    else "+" + Padded(y, 4)
  }

  /** `%Y-%m-%d` of a calendar date. */
  function FormatCivil(c: CivilDate): string
    requires 1 <= c.month && 1 <= c.day
  {
    YearText(c.year) + "-" + Padded(c.month, 2) + "-" + Padded(c.day, 2)
  }

  /** `%Y-%m-%d` of a day number. */
  function FormatDate(d: int): string
  {
    FormatCivil(CivilFromDays(d))
  }

  /** Reads back a `YYYY-MM-DD` text; `None` for any other shape. */
  function ParseDate(s: string): (r: Option<CivilDate>)
  {
    if |s| == 10 && s[4] == '-' && s[7] == '-'
       && (forall i :: 0 <= i < 4 ==> IsDigit(s[i]))
       && IsDigit(s[5]) && IsDigit(s[6]) && IsDigit(s[8]) && IsDigit(s[9])
    then Some(CivilDate(DigitsValue(s[..4]), DigitsValue(s[5..7]), DigitsValue(s[8..10])))
    else None
  }

  /** For a four-digit year, the text is ten characters long and reads back as the day's date. */
  lemma FormatDateParses(d: int)
    ensures 0 <= CivilFromDays(d).year <= 9999 ==>
              |FormatDate(d)| == 10 && ParseDate(FormatDate(d)) == Some(CivilFromDays(d))
  {
    var c := CivilFromDays(d);
    if 0 <= c.year <= 9999 {
      var y, m, dd := Padded(c.year, 4), Padded(c.month, 2), Padded(c.day, 2);
      var s := FormatDate(d);
      assert s == FormatCivil(c) == y + "-" + m + "-" + dd;
      assert s[..4] == y && s[5..7] == m && s[8..10] == dd;
    }
  }

  /** A number below 100 in two digits. */
  lemma TwoDigits(n: nat)
    requires n < 100
    ensures Padded(n, 2) == [DigitChar(n / 10), DigitChar(n % 10)]
  {
    if n >= 10 {
      assert DecimalDigits(n) == DecimalDigits(n / 10) + [DigitChar(n % 10)];
    }
  }

  /** A number from 1000 to 9999 in four digits. */
  lemma FourDigits(n: nat)
    requires 1000 <= n < 10000
    ensures Padded(n, 4) == [DigitChar(n / 1000), DigitChar(n / 100 % 10), DigitChar(n / 10 % 10), DigitChar(n % 10)]
  {
    assert n / 10 / 10 == n / 100 && n / 100 / 10 == n / 1000;
    assert DecimalDigits(n / 100) == DecimalDigits(n / 1000) + [DigitChar(n / 100 % 10)];
    assert DecimalDigits(n / 10) == DecimalDigits(n / 100) + [DigitChar(n / 10 % 10)];
    assert DecimalDigits(n) == DecimalDigits(n / 10) + [DigitChar(n % 10)];
  }

  /** The text of a date whose year has four digits, character by character. */
  lemma FormatCivilDigits(c: CivilDate)
    requires 1000 <= c.year < 10000 && 1 <= c.month <= 12 && 1 <= c.day <= 31
    ensures FormatCivil(c) ==
              [DigitChar(c.year / 1000), DigitChar(c.year / 100 % 10), DigitChar(c.year / 10 % 10), DigitChar(c.year % 10),
               '-', DigitChar(c.month / 10), DigitChar(c.month % 10),
               '-', DigitChar(c.day / 10), DigitChar(c.day % 10)]
  {
    FourDigits(c.year);
    TwoDigits(c.month);
    TwoDigits(c.day);
  }

  /** The digit characters, one by one. */
  lemma DigitChars()
    ensures DigitChar(0) == '0' && DigitChar(1) == '1' && DigitChar(2) == '2' && DigitChar(3) == '3'
    ensures DigitChar(4) == '4' && DigitChar(5) == '5' && DigitChar(6) == '6' && DigitChar(7) == '7'
    ensures DigitChar(8) == '8' && DigitChar(9) == '9'
  {
  }

  lemma CivilEpoch()
    ensures CivilFromDays(0) == CivilDate(1970, 1, 1)
  {
    assert 0 + EpochShift == 719468 && 719468 / 146097 == 4 && 719468 % 146097 == 135080;
    assert 135080 / 36524 == 3 && 25508 / 1461 == 17 && 25508 % 1461 == 671 && 671 / 365 == 1;
    assert SplitEra(135080) == EraDay(369, 306);
    assert MonthDay(306) == (1, 1);
  }

  lemma FormatDateEpoch()
    ensures FormatDate(0) == "1970-01-01"
  {
    CivilEpoch();
    FormatCivilDigits(CivilDate(1970, 1, 1));
    DigitChars();
    assert 1970 / 1000 == 1 && 1970 / 100 % 10 == 9 && 1970 / 10 % 10 == 7 && 1970 % 10 == 0;
    assert 1 / 10 == 0 && 1 % 10 == 1;
  }

  lemma CivilBeforeEpoch()
    ensures CivilFromDays(-1) == CivilDate(1969, 12, 31)
  {
    assert -1 + EpochShift == 719467 && 719467 / 146097 == 4 && 719467 % 146097 == 135079;
    assert 135079 / 36524 == 3 && 25507 / 1461 == 17 && 25507 % 1461 == 670 && 670 / 365 == 1;
    assert SplitEra(135079) == EraDay(369, 305);
    assert MonthDay(305) == (12, 31);
  }

  lemma FormatDateBeforeEpoch()
    ensures FormatDate(-1) == "1969-12-31"
  {
    CivilBeforeEpoch();
    FormatCivilDigits(CivilDate(1969, 12, 31));
    DigitChars();
    assert 1969 / 1000 == 1 && 1969 / 100 % 10 == 9 && 1969 / 10 % 10 == 6 && 1969 % 10 == 9;
    assert 12 / 10 == 1 && 12 % 10 == 2 && 31 / 10 == 3 && 31 % 10 == 1;
  }

  lemma CivilLeapDay()
    ensures CivilFromDays(19782) == CivilDate(2024, 2, 29)
  {
    assert 19782 + EpochShift == 739250 && 739250 / 146097 == 5 && 739250 % 146097 == 8765;
    assert 8765 / 36524 == 0 && 8765 / 1461 == 5 && 8765 % 1461 == 1460 && 1460 / 365 == 4;
    assert SplitEra(8765) == EraDay(23, 365);
    assert MonthDay(365) == (2, 29);
  }

  lemma FormatDateLeapDay()
    ensures FormatDate(19782) == "2024-02-29"
  {
    CivilLeapDay();
    FormatCivilDigits(CivilDate(2024, 2, 29));
    DigitChars();
    assert 2024 / 1000 == 2 && 2024 / 100 % 10 == 0 && 2024 / 10 % 10 == 2 && 2024 % 10 == 4;
    assert 2 / 10 == 0 && 2 % 10 == 2 && 29 / 10 == 2 && 29 % 10 == 9;
  }
}
