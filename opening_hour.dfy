/** The weekly schedule embedded in a hospital (`OpeningHour`) and its own
    opening test, which lets parse failures escape. */
module OpeningHour {
  import opened Errors
  import opened Text

  datatype DayOfWeek = Monday | Tuesday | Wednesday | Thursday | Friday | Saturday | Sunday

  /** One optional "HH:MM~HH:MM" string per weekday; `None` is a `null` column. */
  datatype OpeningHour = OpeningHour(
    monday: Option<string>,
    tuesday: Option<string>,
    wednesday: Option<string>,
    thursday: Option<string>,
    friday: Option<string>,
    saturday: Option<string>,
    sunday: Option<string>)

  /** The `switch` on today's weekday. */
  function HoursOn(oh: OpeningHour, day: DayOfWeek): Option<string>
  {
    match day
    case Monday => oh.monday
    case Tuesday => oh.tuesday
    case Wednesday => oh.wednesday
    case Thursday => oh.thursday
    case Friday => oh.friday
    case Saturday => oh.saturday
    case Sunday => oh.sunday
  }

  /** Each weekday reads its own column and no other: two schedules that
      answer alike on every weekday are the same schedule. */
  lemma {:induction false} SlotsDetermineSchedule(a: OpeningHour, b: OpeningHour)
    requires forall d :: HoursOn(a, d) == HoursOn(b, d)
    ensures a == b
  {
    assert HoursOn(a, Monday) == HoursOn(b, Monday);
    assert HoursOn(a, Tuesday) == HoursOn(b, Tuesday);
    assert HoursOn(a, Wednesday) == HoursOn(b, Wednesday);
    assert HoursOn(a, Thursday) == HoursOn(b, Thursday);
    assert HoursOn(a, Friday) == HoursOn(b, Friday);
    assert HoursOn(a, Saturday) == HoursOn(b, Saturday);
    assert HoursOn(a, Sunday) == HoursOn(b, Sunday);
  }

  // ---------------------------------------------------------------------
  // Times of day
  // ---------------------------------------------------------------------

  const MinutesPerDay: int := 1440

  /** A `LocalTime` on a whole minute, counted from midnight. */
  type MinuteOfDay = m: int | 0 <= m < MinutesPerDay

  function TwoDigitValue(hi: char, lo: char): int
    requires IsAsciiDigit(hi) && IsAsciiDigit(lo)
  {
    (hi as int - '0' as int) * 10 + (lo as int - '0' as int)
  }

  /** `LocalTime.parse` on the "HH:MM" form: two digits each, hour below 24,
      minute below 60. */
  function ParseLocalTime(s: string): (r: Option<MinuteOfDay>)
    ensures r.Some? ==> |s| == 5 && s[2] == ':'
  {
    if |s| == 5 && IsAsciiDigit(s[0]) && IsAsciiDigit(s[1]) && s[2] == ':'
       && IsAsciiDigit(s[3]) && IsAsciiDigit(s[4])
       && TwoDigitValue(s[0], s[1]) < 24 && TwoDigitValue(s[3], s[4]) < 60
    then Some(TwoDigitValue(s[0], s[1]) * 60 + TwoDigitValue(s[3], s[4]))
    else None
  }

  /** `LocalTime.toString()` of a time on a whole minute: "HH:MM". */
  function FormatLocalTime(m: MinuteOfDay): (s: string)
    ensures |s| == 5 && s[2] == ':'
    ensures forall i :: 0 <= i < |s| && i != 2 ==> IsAsciiDigit(s[i])
  {
    var h, mm := m / 60, m % 60;
    [DigitChar(h / 10), DigitChar(h % 10), ':', DigitChar(mm / 10), DigitChar(mm % 10)]
  }

  /** Parsing a printed time gives the time back. */
  lemma ParseFormat(m: MinuteOfDay)
    ensures ParseLocalTime(FormatLocalTime(m)) == Some(m)
  {
    var s := FormatLocalTime(m);
    var h, mm := m / 60, m % 60;
    assert TwoDigitValue(s[0], s[1]) == h;
    assert TwoDigitValue(s[3], s[4]) == mm;
  }

  /** Only the canonical spelling parses: printing a parsed time gives the text back. */
  lemma FormatParse(s: string)
    requires ParseLocalTime(s).Some?
    ensures FormatLocalTime(ParseLocalTime(s).value) == s
  {
    var m := ParseLocalTime(s).value;
    var h, mm := TwoDigitValue(s[0], s[1]), TwoDigitValue(s[3], s[4]);
    assert m / 60 == h && m % 60 == mm;
    var f := FormatLocalTime(m);
    assert f[0] == s[0] && f[1] == s[1] && f[3] == s[3] && f[4] == s[4];
  }

  /** The schedule text of a `[start, end)` slot. */
  function FormatSlot(start: MinuteOfDay, end: MinuteOfDay): string
  {
    FormatLocalTime(start) + "~" + FormatLocalTime(end)
  }

  // ---------------------------------------------------------------------
  // OpeningHour.isOpenNow
  // ---------------------------------------------------------------------

  /** Split on '~', then `LocalTime.parse(parts[0])` and
      `LocalTime.parse(parts[1])` in that order, untrimmed. A missing part
      raises `ArrayIndexOutOfBoundsException` and a bad time
      `DateTimeParseException`, whichever comes first. */
  function SlotRange(hours: string): (r: Result<(MinuteOfDay, MinuteOfDay)>)
    ensures r.Err? ==> r.error in {Raised(ArrayIndexOutOfBounds), Raised(DateTimeParse)}
    ensures '~' !in hours ==> r.Err?
    ensures r.Ok? ==> exists k :: 0 <= k < |hours| && hours[k] == '~'
  {
    var parts := JavaSplit(hours, '~');
    if |parts| == 0 then Err(Raised(ArrayIndexOutOfBounds))
    else match ParseLocalTime(parts[0])
      case None => Err(Raised(DateTimeParse))
      case Some(start) =>
        if |parts| < 2 then Err(Raised(ArrayIndexOutOfBounds))
        else match ParseLocalTime(parts[1])
          case None => Err(Raised(DateTimeParse))
          case Some(end) => Ok((start, end))
  }

  /** Open on `today` at `now` by this schedule alone: a `null` slot is closed,
      otherwise `start <= now < end`; a malformed slot propagates its exception. */
  function IsOpenNow(oh: OpeningHour, today: DayOfWeek, now: MinuteOfDay): (r: Result<bool>)
    ensures HoursOn(oh, today).None? ==> r == Ok(false)
    ensures HoursOn(oh, today).Some? ==>
      match SlotRange(HoursOn(oh, today).value)
      case Err(e) => r == Err(e)
      case Ok((start, end)) => r == Ok(start <= now < end)
  {
    match HoursOn(oh, today)
    case None => Ok(false)
    case Some(hours) =>
      match SlotRange(hours)
      case Err(e) => Err(e)
      case Ok((start, end)) => Ok(start <= now < end)
  }

  /** A well-formed slot opens at its first minute and closes at its last:
      the interval is half-open. */
  lemma FormattedSlotRange(start: MinuteOfDay, end: MinuteOfDay)
    ensures SlotRange(FormatSlot(start, end)) == Ok((start, end))
  {
    var a, b := FormatLocalTime(start), FormatLocalTime(end);
    assert '~' !in a && '~' !in b;
    assert FormatSlot(start, end) == a + ['~'] + b + [];
    JavaSplitLeadingPair(a, b, [], '~');
    ParseFormat(start);
    ParseFormat(end);
  }

  lemma HalfOpen(oh: OpeningHour, today: DayOfWeek, start: MinuteOfDay, end: MinuteOfDay)
    requires HoursOn(oh, today) == Some(FormatSlot(start, end))
    requires start < end
    ensures IsOpenNow(oh, today, start) == Ok(true)
    ensures IsOpenNow(oh, today, end) == Ok(false)
  {
    FormattedSlotRange(start, end);
  }

  /** No trimming: a slot padded with spaces does not parse. */
  lemma PaddedSlotFails(start: MinuteOfDay, end: MinuteOfDay)
    ensures SlotRange(" " + FormatSlot(start, end)) == Err(Raised(DateTimeParse))
  {
    var a, b := " " + FormatLocalTime(start), FormatLocalTime(end);
    assert '~' !in a && '~' !in b;
    assert " " + FormatSlot(start, end) == a + ['~'] + b + [];
    JavaSplitLeadingPair(a, b, [], '~');
  }

  /** Text after a second '~' is never read, as long as the second part is present. */
  lemma OnlyFirstTwoParts(a: string, b: string, c: string)
    requires '~' !in a && '~' !in b && b != ""
    ensures SlotRange(a + "~" + b + "~" + c) == SlotRange(a + "~" + b)
  {
    assert a + "~" + b + "~" + c == a + ['~'] + b + ("~" + c);
    assert a + "~" + b == a + ['~'] + b + [];
    JavaSplitLeadingPair(a, b, "~" + c, '~');
    JavaSplitLeadingPair(a, b, [], '~');
  }
}
