/** Reading the diary: one diary for its owner, a month of diaries for the
    calendar, and the newest scores for the graph. The repository queries
    are written over the sequence of saved diaries. */
module DiaryQuery {
  import opened Errors
  import opened Calendar
  import opened Seqs
  import opened DiaryCommand

  /** `getDiary`: an unknown id is `DIARY_NOT_FOUND`, another user's diary
      `DIARY_ACCESS_DENIED`; the caller's own diary is returned. */
  function GetDiary(userId: int, diaryId: int, findById: int -> Option<Diary>): (r: Result<Diary>)
    ensures findById(diaryId).None? <==> r == Err(DiaryNotFound)
    ensures r == Err(DiaryAccessDenied) <==>
      findById(diaryId).Some? && findById(diaryId).value.userId != userId
    ensures r.Ok? <==> findById(diaryId).Some? && findById(diaryId).value.userId == userId
    ensures r.Ok? ==> r.value == findById(diaryId).value
  {
    match findById(diaryId)
    case None => Err(DiaryNotFound)
    case Some(diary) =>
      if diary.userId != userId then Err(DiaryAccessDenied)
      else Ok(diary)
  }

  /** The years `YearMonth.of` accepts. */
  const MinYear: int := -999_999_999
  const MaxYear: int := 999_999_999

  /** `YearMonth.of(year, month)` and the window from 00:00 on its first day
      to the last instant of its last day. An out-of-range month or year is
      a `DateTimeException`. */
  function CalendarWindow(year: int, month: int): (r: Result<(DateTime, DateTime)>)
    ensures r.Ok? <==> 1 <= month <= 12 && MinYear <= year <= MaxYear
    ensures r.Err? ==> r.error == Raised(DateTimeOutOfRange)
    ensures r.Ok? ==> r.value.0 == AtStartOfDay(Date(year, month, 1))
    ensures r.Ok? ==> r.value.1.date.year == year && r.value.1.date.month == month
                      && r.value.1.date.day == DaysInMonth(year, month)
                      && r.value.1.nanoOfDay == MaxNanoOfDay
  {
    if !(1 <= month <= 12 && MinYear <= year <= MaxYear) then Err(Raised(DateTimeOutOfRange))
    else Ok((AtStartOfDay(Date(year, month, 1)), AtEndOfDay(Date(year, month, DaysInMonth(year, month)))))
  }

  /** The window catches exactly the instants of that month: no day of it
      is lost, however long the month, and nothing of the next month gets in. */
  lemma CalendarWindowIsMonth(year: int, month: int, t: DateTime)
    requires CalendarWindow(year, month).Ok? && ValidDateTime(t)
    ensures var w := CalendarWindow(year, month).value;
      Between(t, w.0, w.1) <==> t.date.year == year && t.date.month == month
  {
  }

  /** February has 29 days in 2024 and 28 in 2025; 2000 is a leap year and 1900 is not. */
  lemma FebruaryWindow()
    ensures CalendarWindow(2024, 2).value.1.date.day == 29
    ensures CalendarWindow(2025, 2).value.1.date.day == 28
    ensures CalendarWindow(2000, 2).value.1.date.day == 29
    ensures CalendarWindow(1900, 2).value.1.date.day == 28
  {
  }

  datatype CalendarEntry = CalendarEntry(date: Date, diaryId: int)

  /** The user's diaries created inside the window, in repository order. */
  function InWindow(diaries: seq<Diary>, userId: int, start: DateTime, end: DateTime): (r: seq<Diary>)
    ensures forall i :: 0 <= i < |r| ==> r[i] in diaries && r[i].userId == userId && Between(r[i].createdAt, start, end)
    ensures forall d :: d in diaries && d.userId == userId && Between(d.createdAt, start, end) ==> d in r
  {
    Filter(diaries, (d: Diary) => d.userId == userId && Between(d.createdAt, start, end))
  }

  function CalendarEntries(found: seq<Diary>): (r: seq<CalendarEntry>)
    ensures |r| == |found|
    ensures forall i :: 0 <= i < |r| ==> r[i] == CalendarEntry(found[i].createdAt.date, found[i].id)
  {
    if found == [] then [] else [CalendarEntry(found[0].createdAt.date, found[0].id)] + CalendarEntries(found[1..])
  }

  /** `getDiaryCalendar`: one entry (date, id) per diary of the user in that month. */
  function GetDiaryCalendar(userId: int, year: int, month: int, diaries: seq<Diary>): (r: Result<seq<CalendarEntry>>)
    requires forall i :: 0 <= i < |diaries| ==> ValidDateTime(diaries[i].createdAt)
    ensures r.Err? <==> CalendarWindow(year, month).Err?
    ensures r.Ok? ==> forall i :: 0 <= i < |r.value| ==>
      r.value[i].date.year == year && r.value[i].date.month == month
      && exists d :: d in diaries && d.userId == userId && d.id == r.value[i].diaryId && d.createdAt.date == r.value[i].date
    ensures r.Ok? ==> forall d :: (d in diaries && d.userId == userId
                                   && d.createdAt.date.year == year && d.createdAt.date.month == month) ==>
      CalendarEntry(d.createdAt.date, d.id) in r.value
  {
    match CalendarWindow(year, month)
    case Err(e) => Err(e)
    case Ok((startOfDay, endOfDay)) =>
      var found := InWindow(diaries, userId, startOfDay, endOfDay);
      var entries := CalendarEntries(found);
      assert forall i :: 0 <= i < |found| ==> found[i] in diaries && ValidDateTime(found[i].createdAt);
      forall i | 0 <= i < |found| ensures found[i].createdAt.date.year == year && found[i].createdAt.date.month == month {
        CalendarWindowIsMonth(year, month, found[i].createdAt);
      }
      forall d | d in diaries && d.userId == userId && d.createdAt.date.year == year && d.createdAt.date.month == month
        ensures CalendarEntry(d.createdAt.date, d.id) in entries
      {
        CalendarWindowIsMonth(year, month, d.createdAt);
        var i :| 0 <= i < |found| && found[i] == d;
        assert entries[i] == CalendarEntry(d.createdAt.date, d.id);
      }
      Ok(entries)
  }

  /** Newest first: the negated instant, as a sort key. */
  function Newness(d: Diary): real {
    -(Instant(d.createdAt) as real)
  }

  datatype GraphPoint = GraphPoint(date: Date, healthScore: int)

  /** The number of points the graph shows. */
  const GraphSize: nat := 5

  function GraphPoints(top: seq<Diary>): (r: seq<GraphPoint>)
    ensures |r| == |top|
    ensures forall i :: 0 <= i < |r| ==> r[i] == GraphPoint(top[i].createdAt.date, top[i].healthScore)
  {
    if top == [] then [] else [GraphPoint(top[0].createdAt.date, top[0].healthScore)] + GraphPoints(top[1..])
  }

  /** `findTop5ByUserIdOrderByCreatedAtDesc`: the user's five newest diaries, newest first. */
  function Top5Newest(diaries: seq<Diary>, userId: int): (r: seq<Diary>)
    ensures |r| <= GraphSize
    ensures forall i :: 0 <= i < |r| ==> r[i] in diaries && r[i].userId == userId
    ensures forall i, j :: 0 <= i < j < |r| ==> Instant(r[j].createdAt) <= Instant(r[i].createdAt)
    ensures forall d :: d in diaries && d.userId == userId && d !in r ==>
      forall i :: 0 <= i < |r| ==> Instant(d.createdAt) <= Instant(r[i].createdAt)
    ensures |r| == Min(GraphSize, |Filter(diaries, (d: Diary) => d.userId == userId)|)
  {
    var owned := Filter(diaries, (d: Diary) => d.userId == userId);
    var sorted := SortBy(owned, Newness);
    var top := Limit(sorted, GraphSize);
    forall i | 0 <= i < |top| ensures top[i] in diaries && top[i].userId == userId {
      assert top[i] == sorted[i] && sorted[i] in multiset(owned);
    }
    forall d | d in diaries && d.userId == userId && d !in top
      ensures forall i :: 0 <= i < |top| ==> Instant(d.createdAt) <= Instant(top[i].createdAt)
    {
      assert d in multiset(sorted);
      LimitKeepsSmallest(sorted, Newness, GraphSize, d);
    }
    top
  }

  /** `getDiaryGraph`: the dates and scores of the user's five newest diaries. */
  function GetDiaryGraph(userId: int, diaries: seq<Diary>): (r: seq<GraphPoint>)
    ensures r == GraphPoints(Top5Newest(diaries, userId))
    ensures |r| == Min(GraphSize, |Filter(diaries, (d: Diary) => d.userId == userId)|)
    ensures forall i :: 0 <= i < |r| ==>
      exists d :: d in diaries && d.userId == userId && r[i] == GraphPoint(d.createdAt.date, d.healthScore)
  {
    var top := Top5Newest(diaries, userId);
    var points := GraphPoints(top);
    assert forall i :: 0 <= i < |points| ==> top[i] in diaries && points[i] == GraphPoint(top[i].createdAt.date, top[i].healthScore);
    points
  }

  /** Valid date-times shown newest first are in descending `compareTo` order. */
  lemma GraphNewestFirst(diaries: seq<Diary>, userId: int, i: nat, j: nat)
    requires forall k :: 0 <= k < |diaries| ==> ValidDateTime(diaries[k].createdAt)
    requires i < j < |Top5Newest(diaries, userId)|
    ensures DateTimeLe(Top5Newest(diaries, userId)[j].createdAt, Top5Newest(diaries, userId)[i].createdAt)
  {
    var top := Top5Newest(diaries, userId);
    InstantOrder(top[j].createdAt, top[i].createdAt);
  }
}
