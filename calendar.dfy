/** Day numbers for the booking window: the day a "d_m_yyyy" key names, read the way
    new Date(year, month - 1, day) reads the numbers parseInt gives. Days are counted from
    1970-01-01 in the proleptic Gregorian calendar; time of day and time zones play no part. */
module Calendar {
  import opened Collections
  import opened JsText

  /** Days from 1970-01-01 to the given date, month 1..12 (the days-from-civil algorithm). */
  function DaysFromCivil(y: int, m: int, d: int): int
    requires 1 <= m <= 12
  {
    var y' := if m <= 2 then y - 1 else y;
    var era := y' / 400;
    var yoe := y' - era * 400;
    var mp := if m > 2 then m - 3 else m + 9;
    var doy := (153 * mp + 2) / 5 + d - 1;
    var doe := yoe * 365 + yoe / 4 - yoe / 100 + doy;
    era * 146097 + doe - 719468
  }

  /** Day 0 is 1 January 1970. */
  lemma EpochIsDayZero()
    ensures DaysFromCivil(1970, 1, 1) == 0
  {
  }

  /** Days of month m in a year, for every month but February. */
  function DaysInMonth(m: int): int
    requires 1 <= m <= 12 && m != 2
  {
    if m == 4 || m == 6 || m == 9 || m == 11 then 30 else 31
  }

  /** Within a year and away from February, the first of the next month comes DaysInMonth
      days after the first of this one. */
  lemma NextMonthStart(y: int, m: int)
    requires 3 <= m <= 11
    ensures DaysFromCivil(y, m + 1, 1) == DaysFromCivil(y, m, 1) + DaysInMonth(m)
  {
  }

  /** The day new Date(year, monthIndex, day) falls on before the range check: a year 0..99
      means 1900..1999, a month index beyond 0..11 carries into the year, and a day beyond the
      month's length carries into the following months. */
  function CivilDay(y: int, mi: int, d: int): int {
    var fullYear := if 0 <= y <= 99 then 1900 + y else y;
    DaysFromCivil(fullYear + mi / 12, mi % 12 + 1, 1) + d - 1
  }

  /** A Date holds at most 8.64e15 ms either side of the epoch: 100000000 days. */
  const MaxDays := 100000000

  /** The day number new Date(year, monthIndex, day) stands for. Any operand that is not a
      number, or a day beyond MaxDays either side of the epoch, makes an Invalid Date, here
      None. */
  function MakeDay(year: JsNum, monthIndex: JsNum, day: JsNum): (r: Option<int>)
    ensures r.Some? <==> year.Num? && monthIndex.Num? && day.Num?
                         && -MaxDays <= CivilDay(year.n, monthIndex.n, day.n) <= MaxDays
    ensures r.Some? ==> r.value == CivilDay(year.n, monthIndex.n, day.n)
  {
    match (year, monthIndex, day)
    case (Num(y), Num(mi), Num(d)) =>
      var t := CivilDay(y, mi, d);
      if -MaxDays <= t <= MaxDays then Some(t) else None
    case _ => None
  }

  /** Overflowing the time range makes an Invalid Date: 1 January of year 300000 is one. */
  lemma FarYearNamesNoDay()
    ensures MakeDay(Num(300000), Num(0), Num(1)) == None
  {
  }

  /** Both ends of the range are still valid dates. */
  lemma RangeEndsAreDays()
    ensures MakeDay(Num(1970), Num(0), Num(1 + MaxDays)) == Some(MaxDays)
    ensures MakeDay(Num(1970), Num(0), Num(1 - MaxDays)) == Some(-MaxDays)
    ensures MakeDay(Num(1970), Num(0), Num(2 + MaxDays)) == None
  {
  }

  /** month - 1 on a parsed value: only a number stays a number. */
  function MinusOne(v: JsNum): (r: JsNum)
    ensures r.Num? <==> v.Num?
  {
    match v
    case Num(n) => Num(n - 1)
    case _ => NaN
  }

  /** [day, month, year] = slotDate.split('_').map(parseInt); missing parts are undefined. */
  function SlotParts(slotDate: string): (JsNum, JsNum, JsNum) {
    var parts := Split(slotDate, '_');
    (if 0 < |parts| then ParseInt(parts[0]) else Undefined,
     if 1 < |parts| then ParseInt(parts[1]) else Undefined,
     if 2 < |parts| then ParseInt(parts[2]) else Undefined)
  }

  /** new Date(year, month - 1, day) on parsed [day, month, year]. */
  function DayOfParts(parts: (JsNum, JsNum, JsNum)): Option<int> {
    MakeDay(parts.2, MinusOne(parts.1), parts.0)
  }

  /** The day a slot key names. */
  function SlotDay(slotDate: string): Option<int> {
    DayOfParts(SlotParts(slotDate))
  }

  /** Day overflow: day d + 1 of a month is the day after day d. */
  lemma MakeDayNext(y: int, mi: int, d: int)
    requires MakeDay(Num(y), Num(mi), Num(d)).Some? && MakeDay(Num(y), Num(mi), Num(d + 1)).Some?
    ensures MakeDay(Num(y), Num(mi), Num(d + 1)).value == MakeDay(Num(y), Num(mi), Num(d)).value + 1
  {
  }

  /** Within one month the day numbers follow the day of the month. */
  lemma MakeDaySameMonth(y: int, mi: int, d1: int, d2: int)
    requires MakeDay(Num(y), Num(mi), Num(d1)).Some? && MakeDay(Num(y), Num(mi), Num(d2)).Some?
    ensures MakeDay(Num(y), Num(mi), Num(d1)).value <= MakeDay(Num(y), Num(mi), Num(d2)).value <==> d1 <= d2
  {
  }

  /** Month overflow: month index 12 of a year is January of the next one (for four-digit
      years, which the 1900 rule leaves alone). */
  lemma MakeDayMonthCarry(y: int, d: int)
    requires y >= 100
    ensures MakeDay(Num(y), Num(12), Num(d)) == MakeDay(Num(y + 1), Num(0), Num(d))
  {
  }

  /** A two-digit year is read as a year of the 1900s. */
  lemma MakeDayTwoDigitYear(y: int, mi: int, d: int)
    requires 0 <= y <= 99
    ensures MakeDay(Num(y), Num(mi), Num(d)) == MakeDay(Num(1900 + y), Num(mi), Num(d))
  {
  }

  /** An empty key names no day. */
  lemma EmptyKeyNamesNoDay()
    ensures SlotDay("") == None
  {
    assert Split("", '_') == [""];
  }

  /** A key without a year part names no day. */
  lemma KeyWithoutYearNamesNoDay()
    ensures SlotDay("15_6") == None
  {
    assert |Split("15_6", '_')| == 2 by {
      assert "15_6" == "15" + ['_'] + "6";
      SplitAppend("15", '_', "6");
      SplitNoSeparator("15", '_');
    }
  }

  /** The rendered digits of an integer never contain a separator character. */
  lemma IntToStringHasNoSeparator(n: int, sep: char)
    requires !IsDigit(sep) && sep != '-'
    ensures sep !in IntToString(n)
  {
    var s := IntToString(n);
    var digits := NatToString(if n < 0 then -n else n);
    assert s == (if n < 0 then "-" else "") + digits;
    assert forall k :: 0 <= k < |s| ==> s[k] == '-' || IsDigit(s[k]);
  }

  /** The key the booking page writes for day d of month m of year y. */
  function SlotKey(d: int, m: int, y: int): string {
    IntToString(d) + "_" + IntToString(m) + "_" + IntToString(y)
  }

  /** A key splits into its three rendered numbers. */
  lemma SplitSlotKey(d: int, m: int, y: int)
    ensures Split(SlotKey(d, m, y), '_') == [IntToString(d), IntToString(m), IntToString(y)]
  {
    IntToStringHasNoSeparator(d, '_');
    IntToStringHasNoSeparator(m, '_');
    IntToStringHasNoSeparator(y, '_');
    var parts := [IntToString(d), IntToString(m), IntToString(y)];
    assert Join(parts, '_') == SlotKey(d, m, y) by {
      assert Join(parts[..2], '_') == IntToString(d) + "_" + IntToString(m) by {
        assert parts[..2][..1] == [IntToString(d)];
      }
    }
    SplitJoin(parts, '_');
  }

  /** The key of day d of month m of year y parses back to d, m and y. */
  lemma SlotPartsOfKey(d: int, m: int, y: int)
    ensures SlotParts(SlotKey(d, m, y)) == (Num(d), Num(m), Num(y))
  {
    SplitSlotKey(d, m, y);
    ParseIntRoundTrip(d);
    ParseIntRoundTrip(m);
    ParseIntRoundTrip(y);
  }

  /** The key of day d of month m of year y names that day, as new Date(y, m - 1, d) does. */
  lemma SlotDayOfKey(d: int, m: int, y: int)
    ensures SlotDay(SlotKey(d, m, y)) == MakeDay(Num(y), Num(m - 1), Num(d))
  {
    SlotPartsOfKey(d, m, y);
    DayOfNumbers(d, m, y);
  }

  /** Parts that are the numbers d, m and y name new Date(y, m - 1, d). */
  lemma DayOfNumbers(d: int, m: int, y: int)
    ensures DayOfParts((Num(d), Num(m), Num(y))) == MakeDay(Num(y), Num(m - 1), Num(d))
  {
  }
}
