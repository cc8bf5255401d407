/** The proleptic Gregorian calendar of `instans`: day numbers from 1970-01-01 and civil dates. The
    source computes in i32 and i64; no intermediate value leaves those types for the day numbers that an
    i64 of nanoseconds can name. */
module Calendar {

  datatype Date = Date(year: int, month: int, day: int)

  /** Integer division that rounds toward zero. */
  function TruncDiv(a: int, b: int): int
    requires b > 0
  {
    if a >= 0 then a / b else -((-a) / b)
  }

  predicate IsLeapYear(year: int) {
    (year % 4 == 0 && year % 100 != 0) || year % 400 == 0
  }

  function DaysInMonth(year: int, month: int): (n: int)
    requires 1 <= month <= 12
    ensures 28 <= n <= 31
  {
    [31, 28, 31, 30, 31, 30, 31, 31, 30, 31, 30, 31][month - 1] + (if month == 2 && IsLeapYear(year) then 1 else 0)
  }

  predicate Valid(c: Date) {
    1 <= c.month <= 12 && 1 <= c.day <= DaysInMonth(c.year, c.month)
  }

  function DaysFromCivil(c: Date): int {
    var y := c.year - (if c.month <= 2 then 1 else 0);
    var era := TruncDiv(if y >= 0 then y else y - 399, 400);
    var yoe := y - era * 400;
    var doy := TruncDiv(153 * (if c.month > 2 then c.month - 3 else c.month + 9) + 2, 5) + c.day - 1;
    var doe := yoe * 365 + TruncDiv(yoe, 4) - TruncDiv(yoe, 100) + doy;
    era * 146097 + doe - 719468
  }

  /** The year of the era of a day of the era. */
  function YearOfEra(doe: int): int {
    (doe - doe / 1460 + doe / 36524 - doe / 146096) / 365
  }

  function CivilFromDays(days: int): Date {
    var z := days + 719468;
    var era := TruncDiv(if z >= 0 then z else z - 146096, 146097);
    var doe := z - era * 146097;
    var yoe := YearOfEra(doe);
    var y := yoe + era * 400;
    var doy := doe - (365 * yoe + yoe / 4 - yoe / 100);
    var mp := (5 * doy + 2) / 153;
    var d := doy - (153 * mp + 2) / 5 + 1;
    var m := if mp < 10 then mp + 3 else mp - 9;
    Date(if m <= 2 then y + 1 else y, m, d)
  }

  // ----- years counted from March

  /** Day of the era on which the March year `yoe` begins. */
  function YearStart(yoe: int): int {
    365 * yoe + yoe / 4 - yoe / 100
  }

  /** Day of the March year on which its month `mp` begins. */
  function MonthStart(mp: int): int {
    (153 * mp + 2) / 5
  }

  function MarchYear(c: Date): int {
    c.year - (if c.month <= 2 then 1 else 0)
  }

  function MarchMonth(c: Date): int {
    if c.month > 2 then c.month - 3 else c.month + 9
  }

  function DayOfYear(c: Date): int {
    MonthStart(MarchMonth(c)) + c.day - 1
  }

  /** Days in the March year; its leap day is the last one. */
  function YearLength(y: int): int {
    if IsLeapYear(y + 1) then 366 else 365
  }

  lemma FloorEra(y: int, size: int)
    requires size > 0
    ensures TruncDiv(if y >= 0 then y else y - (size - 1), size) == y / size
  {
    if y < 0 {
      var q, r := y / size, y % size;
      var a := -(y - (size - 1));
      assert a == size * (-q) + (size - 1 - r);
      Quotient(a, size, -q, size - 1 - r);
    }
  }

  lemma Quotient(a: int, b: int, q: int, r: int)
    requires b > 0 && a == b * q + r && 0 <= r < b
    ensures a / b == q && a % b == r
  {
    var d := a / b - q;
    assert b * d == r - a % b && b * -d == a % b - r;
    if d > 0 {
      Grows(b, d);
    } else if d < 0 {
      Grows(b, -d);
    }
  }

  lemma Grows(b: int, d: int)
    requires b > 0 && d > 0
    ensures b * d >= b
  {
  }

  /** The day number in terms of the March year and the day in it. */
  lemma DaysByMarchYear(c: Date)
    requires 1 <= c.month <= 12
    ensures var y := MarchYear(c);
            DaysFromCivil(c) == y / 400 * 146097 + YearStart(y % 400) + DayOfYear(c) - 719468
  {
    FloorEra(MarchYear(c), 400);
  }

  /** Months partition the March year. */
  lemma MonthOfDay(doy: int)
    requires 0 <= doy <= 365
    ensures var mp := (5 * doy + 2) / 153;
            0 <= mp <= 11 && MonthStart(mp) <= doy && (mp < 11 ==> doy < MonthStart(mp + 1))
  {
  }

  lemma DayOfMonth(mp: int, d: int)
    requires 0 <= mp <= 11 && 1 <= d && (if mp == 11 then d <= 29 else d <= MonthStart(mp + 1) - MonthStart(mp))
    ensures var doy := MonthStart(mp) + d - 1; (5 * doy + 2) / 153 == mp
  {
  }

  /** The lengths of the months are the distances between their first days. */
  lemma MonthLengths(year: int, month: int)
    requires 1 <= month <= 12 && month != 2
    ensures var mp := MarchMonth(Date(year, month, 1)); DaysInMonth(year, month) == MonthStart(mp + 1) - MonthStart(mp)
  {
  }

  lemma ValidDayOfYear(c: Date)
    requires Valid(c)
    ensures 0 <= DayOfYear(c) < YearLength(MarchYear(c))
    ensures var doy := DayOfYear(c); (5 * doy + 2) / 153 == MarchMonth(c)
  {
    if c.month != 2 {
      MonthLengths(c.year, c.month);
    }
    DayOfMonth(MarchMonth(c), c.day);
  }

  /** Centuries, four-year groups and years of an era. */
  lemma YearStartParts(y: int, c: int, q: int, k: int)
    requires y == 100 * c + 4 * q + k && 0 <= c && 0 <= q < 25 && 0 <= k < 4
    ensures YearStart(y) == 36524 * c + 1461 * q + 365 * k
  {
  }

  lemma LeapByParts(y: int, c: int, q: int, k: int)
    requires y == 100 * c + 4 * q + k && 0 <= c < 4 && 0 <= q < 25 && 0 <= k < 4
    ensures IsLeapYear(y + 1) <==> k == 3 && (q == 24 ==> c == 3)
  {
  }

  lemma LeapInEra(y: int)
    ensures IsLeapYear(y + 1) <==> IsLeapYear(y % 400 + 1)
  {
    var e, n := y / 400, y % 400 + 1;
    Quotient(y + 1, 4, 100 * e + n / 4, n % 4);
    Quotient(y + 1, 100, 4 * e + n / 100, n % 100);
    Quotient(y + 1, 400, e + n / 400, n % 400);
  }

  /** The year of the era is read off any of its days. */
  lemma YearOfEraIs(yoe: int, doy: int)
    requires 0 <= yoe < 400 && 0 <= doy < YearLength(yoe)
    ensures YearOfEra(YearStart(yoe) + doy) == yoe
    ensures 0 <= YearStart(yoe) + doy <= 146096
  {
    var c, q, k := yoe / 100, yoe % 100 / 4, yoe % 4;
    assert yoe == 100 * c + 4 * q + k;
    YearStartParts(yoe, c, q, k);
    LeapByParts(yoe, c, q, k);
    YearOfEraByParts(c, q, k, doy);
  }

  lemma YearOfEraByParts(c: int, q: int, k: int, doy: int)
    requires 0 <= c < 4 && 0 <= q < 25 && 0 <= k < 4 && 0 <= doy <= 365
    requires doy == 365 ==> k == 3 && (q == 24 ==> c == 3)
    ensures YearOfEra(36524 * c + 1461 * q + 365 * k + doy) == 100 * c + 4 * q + k
    ensures 36524 * c + 1461 * q + 365 * k + doy <= 146096
  {
    var doe := 36524 * c + 1461 * q + 365 * k + doy;
    var rest := 24 * c + q + 365 * k + doy;
    var e := if rest >= 1460 then 1 else 0;
    var last := if doe == 146096 then 1 else 0;
    assert doe / 1460 == 25 * c + q + e;
    assert doe / 36524 == c + last;
    assert doe / 146096 == last;
    assert doe - doe / 1460 + doe / 36524 - doe / 146096 == 365 * (100 * c + 4 * q + k) + (doy - e);
  }

  /** Every day of an era falls into the year computed for it. */
  lemma EraDayInYear(doe: int)
    requires 0 <= doe <= 146096
    ensures var yoe := YearOfEra(doe); 0 <= yoe < 400 && 0 <= doe - YearStart(yoe) < YearLength(yoe)
  {
    var c := if doe == 146096 then 3 else doe / 36524;
    var r := doe - 36524 * c;
    var q := if r == 36524 then 24 else r / 1461;
    var s := r - 1461 * q;
    var k := if s == 1460 then 3 else s / 365;
    var doy := s - 365 * k;
    YearOfEraByParts(c, q, k, doy);
    YearStartParts(100 * c + 4 * q + k, c, q, k);
    LeapByParts(100 * c + 4 * q + k, c, q, k);
  }

  // ----- the two conversions

  /** A date goes to a day number and back. */
  lemma CivilOfDays(c: Date)
    requires Valid(c)
    ensures CivilFromDays(DaysFromCivil(c)) == c
  {
    hide DaysFromCivil, CivilFromDays, DaysInMonth, YearOfEra, YearStart, YearLength, MarchYear, MarchMonth, DayOfYear;
    var y := MarchYear(c);
    var era, yoe, doy := y / 400, y % 400, DayOfYear(c);
    DaysByMarchYear(c);
    ValidDayOfYear(c);
    SameLength(y);
    YearOfEraIs(yoe, doy);
    var doe := YearStart(yoe) + doy;
    var z := DaysFromCivil(c) + 719468;
    FloorEra(z, 146097);
    Quotient(z, 146097, era, doe);
    AssembleDate(z, era, doe, yoe, doy, c);
  }

  lemma SameLength(y: int)
    ensures YearLength(y) == YearLength(y % 400)
  {
    LeapInEra(y);
  }

  lemma AssembleDate(z: int, era: int, doe: int, yoe: int, doy: int, c: Date)
    requires Valid(c) && TruncDiv(if z >= 0 then z else z - 146096, 146097) == era && doe == z - era * 146097
    requires YearOfEra(doe) == yoe && doy == doe - YearStart(yoe) && doy == DayOfYear(c) &&
             MarchYear(c) == era * 400 + yoe
    requires (5 * doy + 2) / 153 == MarchMonth(c)
    ensures CivilFromDays(z - 719468) == c
  {
    hide YearOfEra, TruncDiv, DaysInMonth;
  }

  /** A day number goes to a date and back, and the date is a valid one. */
  lemma DaysOfCivil(days: int)
    ensures Valid(CivilFromDays(days)) && DaysFromCivil(CivilFromDays(days)) == days
  {
    hide YearOfEra, DaysFromCivil, YearStart, YearLength;
    var z := days + 719468;
    var era, doe := z / 146097, z % 146097;
    FloorEra(z, 146097);
    EraDayInYear(doe);
    var yoe := YearOfEra(doe);
    var doy := doe - YearStart(yoe);
    var y := era * 400 + yoe;
    Quotient(y, 400, era, yoe);
    SameLength(y);
    YearLengthBound(y);
    MonthOfDay(doy);
    var c := CivilFromDays(days);
    FromParts(days, era, doe, yoe, doy);
    ValidByParts(y, doy);
    DaysByMarchYear(c);
  }

  lemma YearLengthBound(y: int)
    ensures 365 <= YearLength(y) <= 366
  {
  }

  lemma FromParts(days: int, era: int, doe: int, yoe: int, doy: int)
    requires era == TruncDiv(if days + 719468 >= 0 then days + 719468 else days + 719468 - 146096, 146097)
    requires doe == days + 719468 - era * 146097 && yoe == YearOfEra(doe) && doy == doe - YearStart(yoe)
    ensures CivilFromDays(days) == CivilOfParts(era * 400 + yoe, doy)
  {
    hide YearOfEra, TruncDiv;
  }

  /** The civil date of a day of a March year. */
  function CivilOfParts(y: int, doy: int): Date {
    var mp := (5 * doy + 2) / 153;
    var m := if mp < 10 then mp + 3 else mp - 9;
    Date(if m <= 2 then y + 1 else y, m, doy - MonthStart(mp) + 1)
  }

  lemma ValidByParts(y: int, doy: int)
    requires 0 <= doy < YearLength(y)
    ensures var c := CivilOfParts(y, doy); Valid(c) && MarchYear(c) == y && DayOfYear(c) == doy
  {
    hide IsLeapYear;
    MonthOfDay(doy);
    var c := CivilOfParts(y, doy);
    if c.month != 2 {
      MonthLengths(c.year, c.month);
    }
  }

  // ----- the calendar itself

  /** The next date of the calendar. */
  function NextDate(c: Date): Date
    requires Valid(c)
  {
    if c.day < DaysInMonth(c.year, c.month) then c.(day := c.day + 1)
    else if c.month < 12 then Date(c.year, c.month + 1, 1)
    else Date(c.year + 1, 1, 1)
  }

  /** Day numbers count calendar days: the epoch is day 0, and the next date has the next number. */
  lemma NextDayNumber(c: Date)
    requires Valid(c)
    ensures Valid(NextDate(c)) && DaysFromCivil(NextDate(c)) == DaysFromCivil(c) + 1
    ensures DaysFromCivil(Date(1970, 1, 1)) == 0
  {
    NextInYear(c);
    var n := NextDate(c);
    hide DaysFromCivil, Valid, NextDate, YearStart, YearLength, MarchYear, DayOfYear;
    ValidDayOfYear(c);
    ValidDayOfYear(n);
    DaysByMarchYear(c);
    DaysByMarchYear(n);
    EpochIsZero();
    YearAfterYear(MarchYear(c));
  }

  /** The next date is the next day of the March year, or the first one of the next March year. */
  lemma NextInYear(c: Date)
    requires Valid(c)
    ensures var n := NextDate(c);
            Valid(n) &&
            if DayOfYear(c) + 1 < YearLength(MarchYear(c))
            then MarchYear(n) == MarchYear(c) && DayOfYear(n) == DayOfYear(c) + 1
            else MarchYear(n) == MarchYear(c) + 1 && DayOfYear(n) == 0 && DayOfYear(c) + 1 == YearLength(MarchYear(c))
  {
    hide IsLeapYear;
    ValidDayOfYear(c);
    if c.month != 2 {
      MonthLengths(c.year, c.month);
    }
  }

  lemma EpochIsZero()
    ensures DaysFromCivil(Date(1970, 1, 1)) == 0
  {
  }

  lemma StartAfterStart(yoe: int)
    requires 0 <= yoe < 400
    ensures YearStart(yoe + 1) + (if yoe == 399 then 1 else 0) == YearStart(yoe) + YearLength(yoe)
  {
    var c, q, k := yoe / 100, yoe % 100 / 4, yoe % 4;
    assert yoe == 100 * c + 4 * q + k;
    YearStartParts(yoe, c, q, k);
    LeapByParts(yoe, c, q, k);
    if k < 3 {
      YearStartParts(yoe + 1, c, q, k + 1);
    } else if q < 24 {
      YearStartParts(yoe + 1, c, q + 1, 0);
    } else {
      YearStartParts(yoe + 1, c + 1, 0, 0);
    }
  }

  /** March years follow one another at the distance of their length. */
  lemma YearAfterYear(y: int)
    ensures (y + 1) / 400 * 146097 + YearStart((y + 1) % 400) == y / 400 * 146097 + YearStart(y % 400) + YearLength(y)
  {
    hide YearLength;
    var r := y % 400;
    SameLength(y);
    StartAfterStart(r);
    if r == 399 {
      Quotient(y + 1, 400, y / 400 + 1, 0);
    } else {
      Quotient(y + 1, 400, y / 400, r + 1);
    }
  }
}
