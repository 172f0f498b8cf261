/** The hospital entity and its opening test, which overrides the schedule
    for emergency rooms, trims the slot text and reports malformed slots as
    `INVALID_HOSPITAL_OPENING_HOURS`. */
module Hospital {
  import opened Errors
  import opened Text
  import opened OpeningHour

  /** Static reference data: this core only reads hospitals. Coordinates are
      carried along but never computed with. */
  datatype Hospital = Hospital(
    id: int,
    name: string,
    latitude: real,
    longitude: real,
    address: string,
    phoneNumber: string,
    emergency: bool,
    openingHour: Option<OpeningHour>,
    strokeCenter: bool)

  /** The body of the `try` block: split on '~', trim the first two parts and
      parse them. Every failure there (a missing part, a bad time) is caught
      and becomes `None`. */
  function TrimmedSlotRange(hours: string): (r: Option<(MinuteOfDay, MinuteOfDay)>)
    ensures '~' !in hours ==> r.None?
  {
    var parts := JavaSplit(hours, '~');
    if |parts| < 2 then None
    else match (ParseLocalTime(JavaTrim(parts[0])), ParseLocalTime(JavaTrim(parts[1])))
      case (Some(start), Some(end)) => Some((start, end))
      case _ => None
  }

  /** `Hospital.isOpenNow` with today's weekday and the current minute passed in. */
  function IsOpenNow(h: Hospital, today: DayOfWeek, now: MinuteOfDay): (r: Result<bool>)
    ensures h.emergency ==> r == Ok(true)
    ensures !h.emergency && h.openingHour.None? ==> r == Err(Raised(NullPointer))
    ensures !h.emergency && h.openingHour.Some? ==>
      match HoursOn(h.openingHour.value, today)
      case None => r == Ok(false)
      case Some(hours) =>
        match TrimmedSlotRange(hours)
        case None => r == Err(InvalidHospitalOpeningHours)
        case Some((start, end)) => r == Ok(start <= now < end)
    ensures r == Ok(true) && !h.emergency ==>
      var range := TrimmedSlotRange(HoursOn(h.openingHour.value, today).value).value;
      range.0 < range.1
  {
    if h.emergency then Ok(true)
    else match h.openingHour
      // `openingHour.getByDay(today)` runs before the `try`
      case None => Err(Raised(NullPointer))
      case Some(oh) =>
        match HoursOn(oh, today)
        case None => Ok(false)
        case Some(hours) =>
          match TrimmedSlotRange(hours)
          case None => Err(InvalidHospitalOpeningHours)
          case Some((start, end)) => Ok(start <= now < end)
  }

  /** A slot of two printed times, each with any padding `trim` removes,
      reads as those two times. */
  lemma PaddedTimes(start: MinuteOfDay, end: MinuteOfDay, p: string, q: string, p2: string, q2: string)
    requires forall i :: 0 <= i < |p| ==> p[i] <= ' '
    requires forall i :: 0 <= i < |q| ==> q[i] <= ' '
    requires forall i :: 0 <= i < |p2| ==> p2[i] <= ' '
    requires forall i :: 0 <= i < |q2| ==> q2[i] <= ' '
    ensures TrimmedSlotRange(p + FormatLocalTime(start) + q + "~" + p2 + FormatLocalTime(end) + q2)
         == Some((start, end))
  {
    var a := p + FormatLocalTime(start) + q;
    var b := p2 + FormatLocalTime(end) + q2;
    var slot := p + FormatLocalTime(start) + q + "~" + p2 + FormatLocalTime(end) + q2;
    assert '~' !in a && '~' !in b;
    assert slot == a + ['~'] + b + [];
    JavaSplitLeadingPair(a, b, [], '~');
    var parts := JavaSplit(slot, '~');
    assert parts[0] == a && parts[1] == b;
    TrimFormatted(start, p, q);
    TrimFormatted(end, p2, q2);
    ParseFormat(start);
    ParseFormat(end);
  }

  /** A well-formed slot is open from its start minute up to, not including,
      its end minute. */
  lemma FormattedSlot(start: MinuteOfDay, end: MinuteOfDay)
    ensures TrimmedSlotRange(FormatSlot(start, end)) == Some((start, end))
  {
    var a, b := FormatLocalTime(start), FormatLocalTime(end);
    assert "" + a + "" + "~" + "" + b + "" == FormatSlot(start, end) by {
      assert "" + a + "" == a && "" + b + "" == b;
    }
    PaddedTimes(start, end, "", "", "", "");
  }

  /** Java's `trim` takes the padding off a printed time and nothing else. */
  lemma TrimFormatted(m: MinuteOfDay, p: string, q: string)
    requires forall i :: 0 <= i < |p| ==> p[i] <= ' '
    requires forall i :: 0 <= i < |q| ==> q[i] <= ' '
    ensures JavaTrim(p + FormatLocalTime(m) + q) == FormatLocalTime(m)
  {
    StripPadded(p, FormatLocalTime(m), q, IsJavaTrimmable);
  }

  lemma HalfOpen(h: Hospital, today: DayOfWeek, start: MinuteOfDay, end: MinuteOfDay)
    requires !h.emergency && h.openingHour.Some?
    requires HoursOn(h.openingHour.value, today) == Some(FormatSlot(start, end))
    requires start < end
    ensures IsOpenNow(h, today, start) == Ok(true)
    ensures IsOpenNow(h, today, end) == Ok(false)
  {
    FormattedSlot(start, end);
  }

  /** Trimming: " HH:MM ~ HH:MM " reads like "HH:MM~HH:MM", where the
      entity's own test fails on it. */
  lemma PaddedSlot(start: MinuteOfDay, end: MinuteOfDay)
    ensures TrimmedSlotRange(" " + FormatLocalTime(start) + " ~ " + FormatLocalTime(end) + " ")
         == Some((start, end))
  {
    var a, b := FormatLocalTime(start), FormatLocalTime(end);
    assert " " + a + " " + "~" + " " + b + " " == " " + a + " ~ " + b + " " by {
      assert " " + a + " " + "~" + " " == " " + a + " ~ ";
    }
    PaddedTimes(start, end, " ", " ", " ", " ");
  }

  /** Only the first two '~'-separated parts are read; anything after a
      second '~' changes nothing. */
  lemma OnlyFirstTwoParts(a: string, b: string, c: string)
    requires '~' !in a && '~' !in b
    ensures TrimmedSlotRange(a + "~" + b + "~" + c) == TrimmedSlotRange(a + "~" + b)
  {
    assert a + "~" + b + "~" + c == a + ['~'] + b + ("~" + c);
    assert a + "~" + b == a + ['~'] + b + [];
    if b != "" {
      JavaSplitLeadingPair(a, b, "~" + c, '~');
      JavaSplitLeadingPair(a, b, [], '~');
    } else {
      assert a + "~" + b + "~" + c == a + ['~'] + ("~" + c);
      assert a + "~" + b == a + ['~'] + [];
      JavaSplitEmptySecond(a, "~" + c, '~');
      JavaSplitEmptySecond(a, [], '~');
      assert JavaTrim("") == "";
    }
  }
}
