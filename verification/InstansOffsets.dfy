/** Texts with a numeric offset, and the layout of printed texts. */
module InstansOffsets {
  import opened Wrappers
  import opened Decimals
  import opened Calendar
  import opened Instans

  // ----- offsets

  /** How an offset is written: hh:mm, hhmm or hh. */
  datatype Form = Colon | Compact | HoursOnly

  function ZoneText(form: Form, minus: bool, minutes: nat): string {
    [if minus then '-' else '+'] +
    match form
    case Colon => Padded(minutes / 60, 2) + [':'] + Padded(minutes % 60, 2)
    case Compact => Padded(minutes / 60, 2) + Padded(minutes % 60, 2)
    case HoursOnly => Padded(minutes / 60, 2)
  }

  /** Minutes east of UTC. */
  function East(minus: bool, minutes: nat): int {
    var n: int := minutes;
    if minus then -n else n
  }

  /** A zone that can follow the time: it does not look like a part of it. */
  predicate CanFollow(zone: string) {
    zone != [] && !IsDigit(zone[0]) && zone[0] != '.' && 'T' !in zone
  }

  lemma TwoDigits(n: nat)
    requires n < 100
    ensures |Padded(n, 2)| == 2 && ParseU32(Padded(n, 2)) == Some(n)
    ensures ':' !in Padded(n, 2) && 'T' !in Padded(n, 2) && '+' !in Padded(n, 2)
  {
    SmallPowers();
    ReadPadded(n, 2, 0xffff_ffff);
  }

  lemma ColonReads(zone: string, minus: bool, h: nat, m: nat)
    requires h <= 23 && m <= 59 && zone == [if minus then '-' else '+'] + (Padded(h, 2) + [':'] + Padded(m, 2))
    ensures ParseNumericOffset(zone) == Some(East(minus, h * 60 + m))
  {
    hide Padded, ParseUnsigned, SplitOnce;
    TwoDigits(h);
    TwoDigits(m);
    assert zone[1..] == Padded(h, 2) + [':'] + Padded(m, 2);
    SplitsThere(Padded(h, 2), ':', Padded(m, 2));
  }

  lemma DoubleZero()
    ensures Padded(0, 2) == "00"
  {
    assert Decimal(0) == "0";
  }

  /** Zero hours and minutes, which the parser also knows as they are, mean no offset. */
  lemma NoOffset()
    ensures ParseNumericOffset("+00:00") == Some(0) && ParseNumericOffset("-00:00") == Some(0)
  {
    hide Padded, ParseNumericOffset;
    DoubleZero();
    ColonReads("+00:00", false, 0, 0);
    ColonReads("-00:00", true, 0, 0);
  }

  lemma CompactReads(zone: string, minus: bool, h: nat, m: nat)
    requires h <= 23 && m <= 59 && zone == [if minus then '-' else '+'] + (Padded(h, 2) + Padded(m, 2))
    ensures ParseNumericOffset(zone) == Some(East(minus, h * 60 + m))
  {
    hide Padded, ParseUnsigned, SplitOnce;
    TwoDigits(h);
    TwoDigits(m);
    var rest := zone[1..];
    assert rest == Padded(h, 2) + Padded(m, 2);
    assert rest[0..2] == Padded(h, 2) && rest[2..4] == Padded(m, 2);
  }

  lemma HoursRead(zone: string, minus: bool, h: nat)
    requires h <= 23 && zone == [if minus then '-' else '+'] + Padded(h, 2)
    ensures ParseNumericOffset(zone) == Some(East(minus, h * 60))
  {
    hide Padded, ParseUnsigned, SplitOnce;
    TwoDigits(h);
    assert zone[1..] == Padded(h, 2);
  }

  lemma ZoneReads(form: Form, minus: bool, minutes: nat)
    requires minutes < 24 * 60 && (form == HoursOnly ==> minutes % 60 == 0)
    ensures var zone := ZoneText(form, minus, minutes);
            CanFollow(zone) && ParseOffset(zone) == Some(East(minus, minutes))
  {
    hide Padded, ParseNumericOffset;
    var zone, h, m := ZoneText(form, minus, minutes), minutes / 60, minutes % 60;
    TwoDigits(h);
    TwoDigits(m);
    match form {
      case Colon => ColonReads(zone, minus, h, m);
      case Compact => CompactReads(zone, minus, h, m);
      case HoursOnly => HoursRead(zone, minus, h);
    }
    NoOffset();
  }

  /** A local date and time at a precision, and a zone. */
  function ZonedText(p: Precision, local: int, at: char, zone: string): string {
    DaysOfCivil(local / NANOS_PER_DAY);
    DateText(CivilFromDays(local / NANOS_PER_DAY)) + [at] +
    (ClockText(local % NANOS_PER_DAY / NANOS_PER_SECOND) +
     FractionText(p, local % NANOS_PER_DAY % NANOS_PER_SECOND) + zone)
  }

  lemma ZonedTimeReads(p: Precision, nanosOfDay: nat, zone: string, offset: int)
    requires nanosOfDay < NANOS_PER_DAY && nanosOfDay % NANOS_PER_SECOND % ModulusNanos(p) == 0
    requires CanFollow(zone) && ParseOffset(zone) == Some(offset)
    ensures var secs, rem := nanosOfDay / NANOS_PER_SECOND, nanosOfDay % NANOS_PER_SECOND;
            TimeAndOffset(ClockText(secs) + FractionText(p, rem) + zone) ==
              Some(TimeParts(Clock(secs / 3600, secs % 3600 / 60, secs % 60), rem, offset))
  {
    hide ParseClock, ClockText, Padded, Pow10, FractionNanos, FractionUnit, ParseOffset, DigitsValue;
    var secs, rem := nanosOfDay / NANOS_PER_SECOND, nanosOfDay % NANOS_PER_SECOND;
    var clock, fraction := ClockText(secs), FractionText(p, rem);
    var s := clock + fraction + zone;
    Joined(clock, fraction, zone);
    ClockReads(secs, fraction + zone);
    if p == Secunda {
      assert fraction == "" && rem == 0;
      assert s == clock + zone && s[8..] == zone;
    } else {
      FractionReads(p, rem);
      var f := Padded(rem / FractionUnit(p), FractionDigits(p));
      assert fraction == "." + f;
      FractionPlaces(clock, f, zone);
      RunOfDigits(clock + ".", f, zone, 9);
    }
  }

  lemma FractionPlaces(clock: string, f: string, zone: string)
    requires |clock| == 8
    ensures var s := clock + ("." + f) + zone;
            s == (clock + ".") + f + zone && s[8] == '.' && s[9..9 + |f|] == f && s[9 + |f|..] == zone
  {
  }

  lemma NoLetter(p: Precision, nanosOfDay: nat)
    requires nanosOfDay < NANOS_PER_DAY
    ensures 'T' !in ClockText(nanosOfDay / NANOS_PER_SECOND) && 'T' !in FractionText(p, nanosOfDay % NANOS_PER_SECOND)
  {
    hide Padded, FractionUnit;
  }

  /** Where the date ends, whichever letter is there. */
  lemma HalvesAre(date: string, at: char, rest: string)
    requires (at == 'T' || at == 't') && 'T' !in date && 'T' !in rest && 't' !in date
    ensures var input := date + [at] + rest;
            (if SplitOnce(input, 'T').Some? then SplitOnce(input, 'T') else SplitOnce(input, 't')) == Some((date, rest))
  {
    hide SplitOnce;
    SplitsThere(date, at, rest);
  }

  lemma DateHasNoLetter(c: Date)
    requires Valid(c) && 0 <= c.year < 10000
    ensures 't' !in DateText(c)
  {
    ValidRange(c);
    hide Padded, Valid;
  }

  /** Every local date and time with four digits of the year, and any zone the parser knows: the offset is
      taken off the local instant; refused are exactly those whose day start, local instant or instant does
      not fit an i64. */
  lemma ZonedReads(p: Precision, local: int, at: char, zone: string, offset: int)
    requires local % ModulusNanos(p) == 0 && (at == 'T' || at == 't')
    requires CanFollow(zone) && ParseOffset(zone) == Some(offset)
    requires 0 <= CivilFromDays(local / NANOS_PER_DAY).year < 10000
    ensures var instant := local - offset * 60 * NANOS_PER_SECOND;
            ParseRfc3339(ZonedText(p, local, at, zone)) ==
              if FitsI64(local / NANOS_PER_DAY * NANOS_PER_DAY) && FitsI64(local) && FitsI64(instant)
              then Some(instant) else None
  {
    hide DaysFromCivil, CivilFromDays, ParseDate, TimeAndOffset, DateText, ClockText, FractionText, Valid, SplitOnce;
    hide ParseOffset;
    var days, nanosOfDay := local / NANOS_PER_DAY, local % NANOS_PER_DAY;
    var c := CivilFromDays(days);
    DaysOfCivil(days);
    ValidRange(c);
    DateReads(c);
    TruncatedParts(p, local);
    ZonedTimeReads(p, nanosOfDay, zone, offset);
    NoLetter(p, nanosOfDay);
    DateHasNoLetter(c);
    var rest := ClockText(nanosOfDay / NANOS_PER_SECOND) + FractionText(p, nanosOfDay % NANOS_PER_SECOND) + zone;
    HalvesAre(DateText(c), at, rest);
    ClockAddsUp(nanosOfDay);
  }

  predicate FitsI64(n: int) {
    -0x8000_0000_0000_0000 <= n <= 0x7fff_ffff_ffff_ffff
  }

  lemma LocalAtPrecision(p: Precision, t: int, offset: int)
    requires t % ModulusNanos(p) == 0
    ensures (t + offset * 60 * NANOS_PER_SECOND) % ModulusNanos(p) == 0
  {
    var m := ModulusNanos(p);
    var u := 60 * NANOS_PER_SECOND / m;
    assert offset * 60 * NANOS_PER_SECOND == offset * (m * u) by {
      assert m * u == 60 * NANOS_PER_SECOND;
    }
    assert offset * (m * u) == m * (offset * u);
    Quotient(t + m * (offset * u), m, t / m + offset * u, 0);
  }

  /** For every offset of less than a day, in each of its three forms, and every instant at its precision:
      the local date and time followed by the offset parses to the instant exactly when the local day start,
      the local instant and the instant fit an i64. */
  lemma OffsetReads(p: Precision, t: int, form: Form, minus: bool, minutes: nat)
    requires minutes < 24 * 60 && (form == HoursOnly ==> minutes % 60 == 0) && t % ModulusNanos(p) == 0
    requires 0 <= CivilFromDays((t + East(minus, minutes) * 60 * NANOS_PER_SECOND) / NANOS_PER_DAY).year < 10000
    ensures var local := t + East(minus, minutes) * 60 * NANOS_PER_SECOND;
            ParseRfc3339(ZonedText(p, local, 'T', ZoneText(form, minus, minutes))) ==
              if FitsI64(local / NANOS_PER_DAY * NANOS_PER_DAY) && FitsI64(local) && FitsI64(t) then Some(t) else None
  {
    hide CivilFromDays, ParseRfc3339, ZonedText, ZoneText, ParseOffset;
    ZoneReads(form, minus, minutes);
    LocalAtPrecision(p, t, East(minus, minutes));
    ZonedReads(p, t + East(minus, minutes) * 60 * NANOS_PER_SECOND, 'T', ZoneText(form, minus, minutes),
               East(minus, minutes));
  }

  /** Every i64 instant has such a local date. */
  lemma LocalYear(t: I64, minus: bool, minutes: nat)
    requires minutes < 24 * 60
    ensures 0 <= CivilFromDays((t + East(minus, minutes) * 60 * NANOS_PER_SECOND) / NANOS_PER_DAY).year < 10000
  {
    var days := (t + East(minus, minutes) * 60 * NANOS_PER_SECOND) / NANOS_PER_DAY;
    assert -106753 <= days <= 106752;
    hide YearOfEra;
    FloorEra(days + 719468, 146097);
    EraDayInYear((days + 719468) % 146097);
  }

  lemma DayStart(t: I64)
    ensures FitsI64(t / NANOS_PER_DAY * NANOS_PER_DAY) <==> t >= FIRST_WHOLE_DAY
  {
  }

  /** The letters may be small. */
  lemma SmallLettersRead(p: Precision, t: I64)
    requires t % ModulusNanos(p) == 0
    ensures ParseRfc3339(ZonedText(p, t, 't', "z")) == if t >= FIRST_WHOLE_DAY then Some(t) else None
  {
    hide CivilFromDays, ParseRfc3339, ZonedText, ModulusNanos;
    LocalYear(t, false, 0);
    DayStart(t);
    assert CanFollow("z") && ParseOffset("z") == Some(0);
    ZonedReads(p, t, 't', "z", 0);
  }

  // ----- looser than the documentation

  lemma SmallNumerals()
    ensures ParseU32("+1") == Some(1) && ParseU32("1") == Some(1) && ParseU32("+5") == Some(5)
    ensures ParseI32("+020") == Some(20)
  {
    assert "+1"[1..] == "1" && "+5"[1..] == "5" && "+020"[1..] == "020";
    assert "1"[..0] == "" && "5"[..0] == "" && "020"[..2] == "02" && "02"[..1] == "0" && "0"[..0] == "";
    assert DigitsValue("1") == 1 && DigitsValue("5") == 5 && DigitsValue("0") == 0 && DigitsValue("02") == 2;
    assert DigitsValue("020") == 20;
  }

  /** A sign may stand for a digit of a date, and an offset with a colon may have any number of digits. */
  lemma AcceptsSigns()
    ensures ParseDate("+020-+1-+1") == Some(Date(20, 1, 1)) && ParseOffset("+1:+5") == Some(65)
  {
    SmallNumerals();
    hide ParseUnsigned, ParseI32;
    var date := "+020-+1-+1";
    assert date[0..4] == "+020" && date[5..7] == "+1" && date[8..10] == "+1";
    SplitsThere("1", ':', "+5");
    assert "+1:+5"[1..] == "1" + [':'] + "+5";
    hide SplitOnce;
  }

  // ----- the layout of a printed text

  /** The digits from `from` up to `to` are this number. */
  predicate Shows(text: string, from: nat, to: nat, n: int) {
    from <= to <= |text| && AllDigits(text[from..to]) && DigitsValue(text[from..to]) == n
  }

  lemma Places(y: string, mo: string, d: string, h: string, mi: string, sec: string, tail: string)
    requires |y| == 4 && |mo| == |d| == |h| == |mi| == |sec| == 2
    ensures var text := y + "-" + mo + "-" + d + "T" + (h + ":" + mi + ":" + sec + tail);
            && |text| == 19 + |tail|
            && text[0..4] == y && text[4] == '-' && text[5..7] == mo && text[7] == '-' && text[8..10] == d
            && text[10] == 'T' && text[11..13] == h && text[13] == ':' && text[14..16] == mi && text[16] == ':'
            && text[17..19] == sec && text[19..] == tail
  {
  }

  ghost predicate Laid(text: string, c: Date, seconds: nat, tail: string) {
    && |text| == 19 + |tail| && text[19..] == tail
    && Shows(text, 0, 4, c.year) && text[4] == '-' && Shows(text, 5, 7, c.month) && text[7] == '-'
    && Shows(text, 8, 10, c.day) && text[10] == 'T'
    && Shows(text, 11, 13, seconds / 3600) && text[13] == ':' && Shows(text, 14, 16, seconds / 60 % 60)
    && text[16] == ':' && Shows(text, 17, 19, seconds % 60)
  }

  lemma SecondsLaid(c: Date, seconds: nat, tail: string)
    requires 1 <= c.month <= 12 && 1 <= c.day <= 31 && 0 <= c.year < 10000 && seconds < 86400
    ensures Laid(DateText(c) + "T" + (ClockText(seconds) + tail), c, seconds, tail)
  {
    hide Padded, Pow10;
    SmallPowers();
    SameMinute(seconds);
    PaddedReads(c.year, 4);
    PaddedReads(c.month, 2);
    PaddedReads(c.day, 2);
    PaddedReads(seconds / 3600, 2);
    PaddedReads(seconds % 3600 / 60, 2);
    PaddedReads(seconds % 60, 2);
    Places(Padded(c.year, 4), Padded(c.month, 2), Padded(c.day, 2), Padded(seconds / 3600, 2),
           Padded(seconds % 3600 / 60, 2), Padded(seconds % 60, 2), tail);
  }

  lemma SameMinute(seconds: nat)
    ensures seconds % 3600 / 60 == seconds / 60 % 60
  {
  }

  /** The fraction, and Z at the end. */
  predicate TailLaid(p: Precision, nanos: nat, tail: string) {
    match p
    case Secunda => tail == "Z"
    case _ =>
      var k := FractionDigits(p);
      |tail| == k + 2 && tail[0] == '.' && Shows(tail, 1, k + 1, nanos / ModulusNanos(p)) && tail[k + 1] == 'Z'
  }

  lemma FractionLaid(p: Precision, nanos: nat)
    requires nanos < NANOS_PER_SECOND
    ensures TailLaid(p, nanos, FractionText(p, nanos) + "Z")
  {
    hide Padded, Pow10;
    SmallPowers();
    OnePower();
    assert FractionUnit(p) == ModulusNanos(p);
    if p != Secunda {
      var k, n := FractionDigits(p), nanos / FractionUnit(p);
      assert n < Pow10(k);
      PaddedReads(n, k);
      var tail := FractionText(p, nanos) + "Z";
      assert tail == "." + Padded(n, k) + "Z";
      assert |tail| == k + 2 && tail[1..k + 1] == Padded(n, k) && tail[k + 1] == 'Z';
      assert Shows(tail, 1, k + 1, n);
    }
  }

  lemma Joined(a: string, b: string, c: string)
    ensures a + b + c == a + (b + c)
  {
  }

  lemma LaidTail(text: string, c: Date, seconds: nat, tail: string)
    requires Laid(text, c, seconds, tail)
    ensures |text| >= 19 && text[19..] == tail
  {
  }

  /** Year, month, day, hour, minute and second of the printed text of an instant stand at fixed places, then
      comes the fraction in the digits of its precision, and Z. */
  lemma TextLayout(p: Precision, t: I64)
    ensures var text := InstantText(p, t);
            && Laid(text, CivilFromDays(t / NANOS_PER_DAY), t % NANOS_PER_DAY / NANOS_PER_SECOND, text[19..])
            && TailLaid(p, t % NANOS_PER_DAY % NANOS_PER_SECOND, text[19..])
  {
    hide CivilFromDays, DaysFromCivil, Valid, DateText, ClockText, FractionText, FractionDigits, ModulusNanos, Laid;
    hide TailLaid;
    var days, nanosOfDay := t / NANOS_PER_DAY, t % NANOS_PER_DAY;
    var c := CivilFromDays(days);
    DaysOfCivil(days);
    ValidRange(c);
    LocalYear(t, false, 0);
    var tail := FractionText(p, nanosOfDay % NANOS_PER_SECOND) + "Z";
    FractionLaid(p, nanosOfDay % NANOS_PER_SECOND);
    SecondsLaid(c, nanosOfDay / NANOS_PER_SECOND, tail);
    var clock := ClockText(nanosOfDay / NANOS_PER_SECOND);
    Joined(clock, FractionText(p, nanosOfDay % NANOS_PER_SECOND), "Z");
    LaidTail(DateText(c) + "T" + (clock + tail), c, nanosOfDay / NANOS_PER_SECOND, tail);
  }

  // ----- one instant in the four precisions

  lemma SampleNumbers()
    ensures Padded(1979, 4) == "1979" && Padded(5, 2) == "05" && Padded(27, 2) == "27"
    ensures Padded(7, 2) == "07" && Padded(32, 2) == "32" && Padded(0, 2) == "00"
  {
    assert Decimal(19) == "19" && Decimal(197) == "197" && Decimal(1979) == "1979";
    assert Decimal(5) == "5" && Decimal(27) == "27" && Decimal(7) == "7" && Decimal(32) == "32" && Decimal(0) == "0";
  }

  lemma SampleFractions()
    ensures Padded(123, 3) == "123" && Padded(123456, 6) == "123456" && Padded(123456789, 9) == "123456789"
  {
    assert Decimal(12) == "12" && Decimal(123) == "123" && Decimal(1234) == "1234" && Decimal(12345) == "12345";
    assert Decimal(123456) == "123456" && Decimal(1234567) == "1234567" && Decimal(12345678) == "12345678";
    assert Decimal(123456789) == "123456789";
  }

  lemma SampleFront(p: Precision, rest: nat)
    requires rest < NANOS_PER_SECOND
    ensures var t := 296_638_320 * NANOS_PER_SECOND + rest;
            InstantText(p, t) == "1979-05-27T07:32:00" + (FractionText(p, rest) + "Z")
  {
    hide Padded, FractionText, CivilFromDays;
    SampleDate();
    SampleNumbers();
    var t := 296_638_320 * NANOS_PER_SECOND + rest;
    assert t / NANOS_PER_DAY == 3433 && t % NANOS_PER_DAY == 27120 * NANOS_PER_SECOND + rest;
    assert (27120 * NANOS_PER_SECOND + rest) / NANOS_PER_SECOND == 27120;
    assert (27120 * NANOS_PER_SECOND + rest) % NANOS_PER_SECOND == rest;
    SampleClock();
    hide ClockText, DateText;
    Joined("07:32:00", FractionText(p, rest), "Z");
    Joined("1979-05-27T", "07:32:00", FractionText(p, rest) + "Z");
  }

  lemma SampleClock()
    ensures ClockText(27120) == "07:32:00" && DateText(Date(1979, 5, 27)) == "1979-05-27"
  {
    hide Padded;
    SampleNumbers();
  }

  lemma SampleDate()
    ensures CivilFromDays(3433) == Date(1979, 5, 27)
  {
  }

  lemma SampleTails()
    ensures FractionText(Secunda, 0) == "" && FractionText(Millisecunda, 123_000_000) == ".123"
    ensures FractionText(Microsecunda, 123_456_000) == ".123456"
    ensures FractionText(Nanosecunda, 123_456_789) == ".123456789"
  {
    SmallPowers();
    OnePower();
    SampleFractions();
    hide Padded, Pow10;
  }

  /** The same instant printed in whole seconds, milliseconds, microseconds and nanoseconds. */
  lemma SampleTexts()
    ensures InstantText(Secunda, 296_638_320_000_000_000) == "1979-05-27T07:32:00Z"
    ensures InstantText(Millisecunda, 296_638_320_123_000_000) == "1979-05-27T07:32:00.123Z"
    ensures InstantText(Microsecunda, 296_638_320_123_456_000) == "1979-05-27T07:32:00.123456Z"
    ensures InstantText(Nanosecunda, 296_638_320_123_456_789) == "1979-05-27T07:32:00.123456789Z"
  {
    SampleTails();
    hide InstantText, FractionText;
    SampleFront(Secunda, 0);
    SampleFront(Millisecunda, 123_000_000);
    SampleFront(Microsecunda, 123_456_000);
    SampleFront(Nanosecunda, 123_456_789);
  }
}
