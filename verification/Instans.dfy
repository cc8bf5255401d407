/** Instants as i64 nanoseconds since the Unix epoch, and their RFC 3339 text. A text is its UTF-8 bytes,
    written as characters. An arithmetic overflow of the source is None. */
module Instans {
  import opened Wrappers
  import opened Decimals
  import opened Calendar

  const I64_MIN := -0x8000_0000_0000_0000
  const I64_MAX := 0x7fff_ffff_ffff_ffff
  const NANOS_PER_SECOND := 1_000_000_000
  const NANOS_PER_DAY := 86_400_000_000_000

  /** The first instant of the earliest day whose start an i64 holds. */
  const FIRST_WHOLE_DAY := -9_223_286_400_000_000_000

  datatype Precision = Secunda | Millisecunda | Microsecunda | Nanosecunda

  function ModulusNanos(p: Precision): (m: nat)
    ensures m > 0
  {
    match p
    case Secunda => 1_000_000_000
    case Millisecunda => 1_000_000
    case Microsecunda => 1_000
    case Nanosecunda => 1
  }

  function FractionDigits(p: Precision): (digits: nat)
    ensures digits <= 9
  {
    match p
    case Secunda => 0
    case Millisecunda => 3
    case Microsecunda => 6
    case Nanosecunda => 9
  }

  function Checked(n: int): Option<int> {
    if I64_MIN <= n <= I64_MAX then Some(n) else None
  }

  /** Toward the earlier multiple of the modulus, also before the epoch. */
  function Truncated(p: Precision, nanos: int): int {
    nanos / ModulusNanos(p) * ModulusNanos(p)
  }

  function TruncateNanos(p: Precision, nanos: I64): Option<int> {
    Checked(Truncated(p, nanos))
  }

  // ----- printing

  function YearText(year: int): string {
    if year >= 0 then Padded(year, 4) else "-" + Padded(-year, 3)
  }

  function DateText(c: Date): string
    requires c.month >= 0 && c.day >= 0
  {
    YearText(c.year) + "-" + Padded(c.month, 2) + "-" + Padded(c.day, 2)
  }

  function ClockText(seconds: nat): string {
    Padded(seconds / 3600, 2) + ":" + Padded(seconds % 3600 / 60, 2) + ":" + Padded(seconds % 60, 2)
  }

  /** The nanoseconds in one unit of the last digit. */
  function FractionUnit(p: Precision): (unit: nat)
    ensures unit > 0
  {
    Pow10(9 - FractionDigits(p))
  }

  function FractionText(p: Precision, nanos: nat): string {
    if FractionDigits(p) == 0 then "" else "." + Padded(nanos / FractionUnit(p), FractionDigits(p))
  }

  function TimeText(p: Precision, nanosOfDay: nat): string {
    ClockText(nanosOfDay / NANOS_PER_SECOND) + FractionText(p, nanosOfDay % NANOS_PER_SECOND) + "Z"
  }

  /** The text of an instant that is already at its precision. */
  function InstantText(p: Precision, t: int): string {
    DaysOfCivil(t / NANOS_PER_DAY);
    DateText(CivilFromDays(t / NANOS_PER_DAY)) + "T" + TimeText(p, t % NANOS_PER_DAY)
  }

  method FormatRfc3339Utc(nanos: I64, p: Precision) returns (text: Option<string>)
    ensures text == (match TruncateNanos(p, nanos) case None => None case Some(t) => Some(InstantText(p, t)))
  {
    hide CivilFromDays, Padded, FractionUnit, Truncated, DateText, ClockText, Valid;
    var truncated := TruncateNanos(p, nanos);
    if truncated.None? {
      return None;
    }
    var dayIndex := truncated.value / NANOS_PER_DAY;
    var nanosOfDay := truncated.value % NANOS_PER_DAY;
    var c := CivilFromDays(dayIndex);
    DaysOfCivil(dayIndex);
    ValidRange(c);
    var secs := nanosOfDay / NANOS_PER_SECOND;
    var remainder := nanosOfDay % NANOS_PER_SECOND;
    var out := DateText(c) + "T" + ClockText(secs);
    out := AppendFraction(out, p, remainder);
    hide FractionText, FractionDigits;
    out := out + "Z";
    FourParts(DateText(c) + "T", ClockText(secs), FractionText(p, remainder), "Z");
    text := Some(out);
  }

  method AppendFraction(front: string, p: Precision, remainder: nat) returns (out: string)
    requires remainder < NANOS_PER_SECOND
    ensures out == front + FractionText(p, remainder)
  {
    hide Padded, FractionUnit;
    out := front;
    var digits := FractionDigits(p);
    if digits > 0 {
      var fraction := remainder / FractionUnit(p);
      out := out + ".";
      out := out + Padded(fraction, digits);
    }
  }

  lemma FourParts(a: string, b: string, c: string, d: string)
    ensures a + b + c + d == a + (b + c + d)
  {
  }

  // ----- parsing

  function ParseDigits(s: string, max: nat): Option<nat> {
    if s == [] || !AllDigits(s) || DigitsValue(s) > max then None else Some(DigitsValue(s))
  }

  /** `str::parse` of an unsigned type: digits, which a plus may precede. */
  function ParseUnsigned(s: string, max: nat): Option<nat> {
    if |s| > 1 && s[0] == '+' then ParseDigits(s[1..], max) else ParseDigits(s, max)
  }

  function Signed(o: Option<nat>, negative: bool): Option<int> {
    if o.None? then None
    else
      var n: int := o.value;
      Some(if negative then -n else n)
  }

  /** `str::parse::<i32>`. */
  function ParseI32(s: string): Option<int> {
    if |s| > 1 && s[0] == '-'
    then Signed(ParseDigits(s[1..], 0x8000_0000), true)
    else Signed(ParseUnsigned(s, 0x7fff_ffff), false)
  }

  function ParseU32(s: string): Option<nat> {
    ParseUnsigned(s, 0xffff_ffff)
  }

  function SplitOnce(s: string, at: char): (r: Option<(string, string)>)
    ensures r.None? <==> at !in s
    ensures r.Some? ==> s == r.value.0 + [at] + r.value.1 && at !in r.value.0
  {
    if s == [] then None
    else if s[0] == at then Some(([], s[1..]))
    else match SplitOnce(s[1..], at)
      case None => None
      case Some((before, after)) => Some(([s[0]] + before, after))
  }

  function ParseDate(date: string): Option<Date> {
    if |date| != 10 then None
    else match (ParseI32(date[0..4]), ParseU32(date[5..7]), ParseU32(date[8..10]))
      case (Some(year), Some(month), Some(day)) =>
        if date[4] == '-' && date[7] == '-' then Some(Date(year, month, day)) else None
      case _ => None
  }

  datatype Clock = Clock(hour: nat, minute: nat, second: nat)

  function ParseClock(s: string): Option<Clock>
    requires |s| >= 8
  {
    match (ParseU32(s[0..2]), ParseU32(s[3..5]), ParseU32(s[6..8]))
    case (Some(hour), Some(minute), Some(second)) =>
      if s[2] == ':' && s[5] == ':' then Some(Clock(hour, minute, second)) else None
    case _ => None
  }

  /** Where the digits from `at` on end. */
  function DigitRun(s: string, at: nat): (end: nat)
    requires at <= |s|
    ensures at <= end <= |s| && AllDigits(s[at..end]) && (end < |s| ==> !IsDigit(s[end]))
    decreases |s| - at
  {
    if at < |s| && IsDigit(s[at]) then
      var end := DigitRun(s, at + 1);
      assert s[at..end] == [s[at]] + s[at + 1..end];
      end
    else at
  }

  /** Filled up to nine digits; what comes after them is dropped. */
  function FractionNanos(digits: string): nat
    requires AllDigits(digits)
  {
    if |digits| >= 9 then DigitsValue(digits[..9])
    else
      TrailingZeros(digits, 9 - |digits|);
      DigitsValue(digits + Repeat('0', 9 - |digits|))
  }

  function OffsetMinutes(hour: Option<nat>, minute: Option<nat>): Option<nat> {
    match (hour, minute)
    case (Some(h), Some(m)) => if h > 23 || m > 59 then None else Some(h * 60 + m)
    case _ => None
  }

  function ParseNumericOffset(zone: string): Option<int>
    requires zone != []
  {
    if zone[0] != '+' && zone[0] != '-' then None
    else
      var rest := zone[1..];
      var minutes := match SplitOnce(rest, ':')
        case Some((hours, mins)) => OffsetMinutes(ParseU32(hours), ParseU32(mins))
        case None =>
          (if |rest| == 4 then OffsetMinutes(ParseU32(rest[0..2]), ParseU32(rest[2..4]))
           else if |rest| == 2 then OffsetMinutes(ParseU32(rest), Some(0))
           else None);
      Signed(minutes, zone[0] == '-')
  }

  function ParseOffset(zone: string): Option<int> {
    if zone == "" then None
    else if zone == "Z" || zone == "z" || zone == "+00:00" || zone == "-00:00" then Some(0)
    else ParseNumericOffset(zone)
  }

  datatype TimeParts = TimeParts(clock: Clock, fractionNanos: nat, offsetMinutes: int)

  function WithOffset(clock: Clock, fraction: nat, zone: string): Option<TimeParts> {
    match ParseOffset(zone)
    case None => None
    case Some(offset) => Some(TimeParts(clock, fraction, offset))
  }

  function TimeAndOffset(rest: string): Option<TimeParts> {
    if |rest| < 8 then None
    else match ParseClock(rest)
      case None => None
      case Some(clock) =>
        if |rest| > 8 && rest[8] == '.' then
          var end := DigitRun(rest, 9);
          if end == 9 then None else WithOffset(clock, FractionNanos(rest[9..end]), rest[end..])
        else WithOffset(clock, 0, rest[8..])
  }

  /** The cursor of `parse_time_and_offset`. */
  method ParseTimeAndOffset(rest: string) returns (r: Option<TimeParts>)
    ensures r == TimeAndOffset(rest)
  {
    hide ParseClock, FractionNanos, ParseOffset;
    if |rest| < 8 {
      return None;
    }
    var clock := ParseClock(rest);
    if clock.None? {
      return None;
    }
    var cursor := 8;
    var fraction := 0;
    if cursor < |rest| && rest[cursor] == '.' {
      cursor := cursor + 1;
      var start := cursor;
      while cursor < |rest| && IsDigit(rest[cursor])
        invariant start <= cursor <= |rest|
        invariant DigitRun(rest, start) == DigitRun(rest, cursor)
      {
        cursor := cursor + 1;
      }
      if start == cursor {
        return None;
      }
      fraction := FractionNanos(rest[start..cursor]);
    }
    r := WithOffset(clock.value, fraction, rest[cursor..]);
  }

  function CivilDatetimeNanos(c: Date, clock: Clock, fraction: nat): Option<int> {
    match Checked(DaysFromCivil(c) * NANOS_PER_DAY)
    case None => None
    case Some(dayNanos) =>
      Checked(dayNanos + (clock.hour * 3600 + clock.minute * 60 + clock.second) * NANOS_PER_SECOND + fraction)
  }

  predicate ValidTimeOfDay(clock: Clock) {
    clock.hour <= 23 && clock.minute <= 59 && clock.second <= 59
  }

  function ParseRfc3339(input: string): Option<int> {
    var halves := if SplitOnce(input, 'T').Some? then SplitOnce(input, 'T') else SplitOnce(input, 't');
    match halves
    case None => None
    case Some((date, rest)) =>
      match (ParseDate(date), TimeAndOffset(rest))
      case (Some(c), Some(time)) => Instant(c, time)
      case _ => None
  }

  /** The instant of a parsed date, time and offset. */
  function Instant(c: Date, time: TimeParts): Option<int> {
    if !Valid(c) || !ValidTimeOfDay(time.clock) then None
    else match CivilDatetimeNanos(c, time.clock, time.fractionNanos)
      case None => None
      case Some(local) => Checked(local - time.offsetMinutes * 60 * NANOS_PER_SECOND)
  }

  // ----- printing and parsing again

  lemma ReadPadded(n: nat, width: nat, max: nat)
    requires width > 0 && n < Pow10(width) && n <= max
    ensures |Padded(n, width)| == width && ParseUnsigned(Padded(n, width), max) == Some(n)
    ensures IsDigit(Padded(n, width)[0])
  {
    PaddedReads(n, width);
  }

  /** Four digits for the year of every instant, and the date read back. */
  lemma DateReads(c: Date)
    requires Valid(c) && 0 <= c.year < 10000
    ensures |DateText(c)| == 10 && ParseDate(DateText(c)) == Some(c)
    ensures 'T' !in DateText(c) && |YearText(c.year)| == 4
  {
    hide Padded, ParseUnsigned, Valid, Pow10;
    assert 1 <= c.month <= 12 && 1 <= c.day <= 31 by {
      ValidRange(c);
    }
    SmallPowers();
    ReadPadded(c.year, 4, 0x7fff_ffff);
    ReadPadded(c.month, 2, 0xffff_ffff);
    ReadPadded(c.day, 2, 0xffff_ffff);
    var y, m, d := Padded(c.year, 4), Padded(c.month, 2), Padded(c.day, 2);
    var s := DateText(c);
    assert s == y + "-" + m + "-" + d;
    assert s[0..4] == y && s[5..7] == m && s[8..10] == d;
  }

  lemma ValidRange(c: Date)
    requires Valid(c)
    ensures 1 <= c.month <= 12 && 1 <= c.day <= 31
  {
  }

  lemma ClockReads(seconds: nat, after: string)
    requires seconds < 86400
    ensures |ClockText(seconds)| == 8
    ensures ParseClock(ClockText(seconds) + after) == Some(Clock(seconds / 3600, seconds % 3600 / 60, seconds % 60))
  {
    hide Padded, ParseUnsigned, Pow10;
    SmallPowers();
    ReadPadded(seconds / 3600, 2, 0xffff_ffff);
    ReadPadded(seconds % 3600 / 60, 2, 0xffff_ffff);
    ReadPadded(seconds % 60, 2, 0xffff_ffff);
    var h, m, s := Padded(seconds / 3600, 2), Padded(seconds % 3600 / 60, 2), Padded(seconds % 60, 2);
    var t := ClockText(seconds) + after;
    assert t == h + ":" + m + ":" + s + after;
    assert t[0..2] == h && t[3..5] == m && t[6..8] == s;
  }

  lemma {:induction false} RunOfDigits(before: string, digits: string, after: string, at: nat)
    requires AllDigits(digits) && after != [] && !IsDigit(after[0]) && |before| <= at <= |before| + |digits|
    ensures DigitRun(before + digits + after, at) == |before| + |digits|
    decreases |digits| + |before| - at
  {
    var s := before + digits + after;
    if at < |before| + |digits| {
      assert s[at] == digits[at - |before|];
      RunOfDigits(before, digits, after, at + 1);
    } else {
      assert s[at] == after[0];
    }
  }

  /** The fraction digits of a precision give back its nanoseconds. */
  lemma FractionReads(p: Precision, nanos: nat)
    requires nanos < NANOS_PER_SECOND && nanos % ModulusNanos(p) == 0 && p != Secunda
    ensures var k := FractionDigits(p); var f := Padded(nanos / FractionUnit(p), k);
            |f| == k && k > 0 && FractionNanos(f) == nanos
  {
    hide Padded, Pow10, DigitsValue;
    SmallPowers();
    var k := FractionDigits(p);
    assert FractionUnit(p) == ModulusNanos(p) by {
      OnePower();
    }
    var n := nanos / FractionUnit(p);
    assert n < Pow10(k) && n * ModulusNanos(p) == nanos by {
      match p {
        case Millisecunda =>
        case Microsecunda =>
        case Nanosecunda =>
      }
    }
    PaddedReads(n, k);
    if k < 9 {
      TrailingZeros(Padded(n, k), 9 - k);
    } else {
      assert Padded(n, 9)[..9] == Padded(n, 9);
    }
  }

  lemma OnePower()
    ensures Pow10(0) == 1
  {
  }

  lemma TimeReads(p: Precision, nanosOfDay: nat)
    requires nanosOfDay < NANOS_PER_DAY && nanosOfDay % NANOS_PER_SECOND % ModulusNanos(p) == 0
    ensures var secs := nanosOfDay / NANOS_PER_SECOND;
            TimeAndOffset(TimeText(p, nanosOfDay)) ==
              Some(TimeParts(Clock(secs / 3600, secs % 3600 / 60, secs % 60), nanosOfDay % NANOS_PER_SECOND, 0))
  {
    hide ParseClock, ClockText, Padded, Pow10, FractionNanos, FractionUnit;
    var secs, rem := nanosOfDay / NANOS_PER_SECOND, nanosOfDay % NANOS_PER_SECOND;
    var clock, fraction := ClockText(secs), FractionText(p, rem);
    var s := TimeText(p, nanosOfDay);
    assert s == clock + (fraction + "Z");
    ClockReads(secs, fraction + "Z");
    if p == Secunda {
      assert s == clock + "Z" && s[8..] == "Z" && rem == 0;
    } else {
      FractionReads(p, rem);
      var f := fraction[1..];
      assert s == (clock + ".") + f + "Z";
      RunOfDigits(clock + ".", f, "Z", 9);
      assert s[8] == '.' && s[9..9 + |f|] == f && s[9 + |f|..] == "Z";
    }
  }

  lemma {:induction false} SplitsThere(before: string, at: char, after: string)
    requires at !in before
    ensures SplitOnce(before + [at] + after, at) == Some((before, after))
    decreases |before|
  {
    var s := before + [at] + after;
    if before == [] {
      assert s[0] == at && s[1..] == after;
    } else {
      SplitsThere(before[1..], at, after);
      assert s[1..] == before[1..] + [at] + after;
      assert s[0] == before[0] && [before[0]] + before[1..] == before;
    }
  }

  /** The day numbers of i64 instants fall into years of four digits. */
  lemma FourDigitYears(days: int)
    requires -106752 <= days <= 106751
    ensures 1600 <= CivilFromDays(days).year <= 2400
  {
    hide YearOfEra;
    var z := days + 719468;
    FloorEra(z, 146097);
    EraDayInYear(z % 146097);
  }

  lemma ModOfMod(t: int, a: nat, u: nat)
    requires a > 0 && u > 0 && a * u > 0
    ensures t % (a * u) % a == t % a
  {
    var q, k := t / (a * u), t / a;
    assert a * u * q == a * (u * q);
    assert a * (k - u * q) == a * k - a * (u * q);
    Quotient(t % (a * u), a, k - u * q, t % a);
  }

  /** The fraction of a second of an instant is at the precision of the instant. */
  lemma TruncatedParts(p: Precision, t: int)
    requires t % ModulusNanos(p) == 0
    ensures t % NANOS_PER_DAY % NANOS_PER_SECOND % ModulusNanos(p) == 0
  {
    var m, u := ModulusNanos(p), NANOS_PER_SECOND / ModulusNanos(p);
    assert m * u == NANOS_PER_SECOND;
    ModOfMod(t, NANOS_PER_SECOND, 86400);
    ModOfMod(t, m, u);
  }

  lemma ClockAddsUp(nanosOfDay: nat)
    requires nanosOfDay < NANOS_PER_DAY
    ensures var secs := nanosOfDay / NANOS_PER_SECOND;
            (secs / 3600 * 3600 + secs % 3600 / 60 * 60 + secs % 60) * NANOS_PER_SECOND +
                nanosOfDay % NANOS_PER_SECOND == nanosOfDay
    ensures var secs := nanosOfDay / NANOS_PER_SECOND;
            ValidTimeOfDay(Clock(secs / 3600, secs % 3600 / 60, secs % 60))
  {
  }

  /** The text of an instant is read back as that instant exactly when the start of its day fits an
      i64; before that the parser declines. */
  lemma TextReads(p: Precision, t: I64)
    requires t % ModulusNanos(p) == 0
    ensures ParseRfc3339(InstantText(p, t)) == if t >= FIRST_WHOLE_DAY then Some(t) else None
  {
    hide DaysFromCivil, CivilFromDays, ParseDate, TimeAndOffset, DateText, TimeText, Valid, Truncated, SplitOnce;
    var days, nanosOfDay := t / NANOS_PER_DAY, t % NANOS_PER_DAY;
    var c := CivilFromDays(days);
    DaysOfCivil(days);
    ValidRange(c);
    FourDigitYears(days);
    DateReads(c);
    TruncatedParts(p, t);
    TimeReads(p, nanosOfDay);
    SplitsThere(DateText(c), 'T', TimeText(p, nanosOfDay));
    ClockAddsUp(nanosOfDay);
  }

  lemma FloorMultiple(nanos: int, m: nat, b: int)
    requires m > 0
    ensures nanos / m * m <= nanos < nanos / m * m + m && nanos / m * m % m == 0
    ensures nanos >= m * b <==> nanos / m * m >= m * b
  {
    var q := nanos / m;
    assert nanos == m * q + nanos % m && q * m == m * q;
    Quotient(m * q, m, q, 0);
    if q < b {
      assert m * (b - q) == m * b - m * q;
      Grows(m, b - q);
    }
  }

  /** For every precision and every i64: printing fails only when truncation leaves i64; otherwise the
      printed text parses to the truncated instant exactly from the first whole day on. */
  lemma RoundTrip(p: Precision, nanos: I64)
    ensures TruncateNanos(p, nanos).None? ==> nanos < FIRST_WHOLE_DAY
    ensures TruncateNanos(p, nanos).Some? ==>
              var t := TruncateNanos(p, nanos).value;
              t <= nanos < t + ModulusNanos(p) &&
              ParseRfc3339(InstantText(p, t)) == if nanos >= FIRST_WHOLE_DAY then Some(t) else None
  {
    hide ParseRfc3339, InstantText;
    var m, t := ModulusNanos(p), Truncated(p, nanos);
    assert m * (FIRST_WHOLE_DAY / m) == FIRST_WHOLE_DAY;
    FloorMultiple(nanos, m, FIRST_WHOLE_DAY / m);
    if TruncateNanos(p, nanos).Some? {
      TextReads(p, t);
    }
  }
}
