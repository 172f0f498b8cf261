/** Writing the daily health diary: the health score of the five answers
    and the guard that allows one diary per user and day. The saved diaries
    are a sequence the store appends to; the clock is a parameter. */
module DiaryCommand {
  import opened Errors
  import opened Calendar
  import Drinking
  import Smoking
  import Exercise
  import Diet
  import Sleep

  /** The five option numbers of a diary entry. */
  datatype DiaryRequest = DiaryRequest(drinking: int, exercise: int, smoking: int, diet: int, sleep: int)

  /** A saved diary; `userId` stands for the owning user. */
  datatype Diary = Diary(
    id: int,
    userId: int,
    drinking: int,
    smoking: int,
    exercise: int,
    diet: int,
    sleep: int,
    healthScore: int,
    createdAt: DateTime)

  function Max(a: int, b: int): int { if a >= b then a else b }

  /** Every option number names a constant of its table. */
  predicate ValidAnswers(req: DiaryRequest) {
    1 <= req.drinking <= 4 && 1 <= req.smoking <= 4 && 1 <= req.exercise <= 3
    && 1 <= req.diet <= 2 && 1 <= req.sleep <= 3
  }

  /** The sum of the five score impacts of valid answers. */
  function ImpactSum(req: DiaryRequest): (sum: int)
    requires ValidAnswers(req)
    ensures -97 <= sum <= 0
  {
    Drinking.OfOption(req.drinking).value.ScoreImpact()
    + Smoking.OfOption(req.smoking).value.ScoreImpact()
    + Exercise.OfOption(req.exercise).value.ScoreImpact()
    + Diet.OfOption(req.diet).value.ScoreImpact()
    + Sleep.OfOption(req.sleep).value.ScoreImpact()
  }

  /** `calculateHealthScore`: look each answer up in its table (in the order
      drinking, smoking, exercise, diet, sleep), add the impacts to 100 and
      clamp at 0. */
  function HealthScore(req: DiaryRequest): (r: Result<int>)
    ensures r.Err? <==> !ValidAnswers(req)
    ensures r.Err? ==> r.error == InvalidDiaryInput
    ensures r.Ok? ==> 3 <= r.value <= 100 && r.value == 100 + ImpactSum(req)
  {
    match Drinking.OfOption(req.drinking)
    case Err(e) => Err(e)
    case Ok(drinking) =>
      match Smoking.OfOption(req.smoking)
      case Err(e) => Err(e)
      case Ok(smoking) =>
        match Exercise.OfOption(req.exercise)
        case Err(e) => Err(e)
        case Ok(exercise) =>
          match Diet.OfOption(req.diet)
          case Err(e) => Err(e)
          case Ok(diet) =>
            match Sleep.OfOption(req.sleep)
            case Err(e) => Err(e)
            case Ok(sleep) =>
              var totalScore := drinking.ScoreImpact() + smoking.ScoreImpact() + exercise.ScoreImpact()
                                + diet.ScoreImpact() + sleep.ScoreImpact();
              Ok(Max(0, 100 + totalScore))
  }

  /** The best answer everywhere scores exactly 100. */
  lemma HealthScoreBest(req: DiaryRequest)
    requires req == DiaryRequest(1, 1, 1, 1, 1)
    ensures HealthScore(req) == Ok(100)
  {
    assert ValidAnswers(req);
    ImpactsOf(req, Drinking.OneOrLess, Smoking.NonSmoker, Exercise.Over150, Diet.Healthy, Sleep.SevenToEight);
  }

  /** The worst answer everywhere scores exactly 3: the clamp at 0 is never reached. */
  lemma HealthScoreWorst(req: DiaryRequest)
    requires req == DiaryRequest(4, 3, 4, 2, 3)
    ensures HealthScore(req) == Ok(3)
  {
    assert ValidAnswers(req);
    ImpactsOf(req, Drinking.OverSix, Smoking.OverTwentyFour, Exercise.UnderSixty, Diet.ProcessedOrHighSalt, Sleep.OverNine);
  }

  /** The impact sum of the answers naming the given constants. */
  lemma ImpactsOf(req: DiaryRequest, d: Drinking.Drinking, s: Smoking.Smoking, e: Exercise.Exercise,
                  t: Diet.Diet, p: Sleep.Sleep)
    requires req == DiaryRequest(d.Option(), e.Option(), s.Option(), t.Option(), p.Option())
    ensures ValidAnswers(req)
    ensures ImpactSum(req) == d.ScoreImpact() + s.ScoreImpact() + e.ScoreImpact() + t.ScoreImpact() + p.ScoreImpact()
  {
    Drinking.OfOptionRoundTrip(d);
    Smoking.OfOptionRoundTrip(s);
    Exercise.OfOptionRoundTrip(e);
    Diet.OfOptionRoundTrip(t);
    Sleep.OfOptionRoundTrip(p);
  }

  /** Raising one option number, the others fixed, never lowers the impact sum. */
  lemma ImpactSumMonotone(req: DiaryRequest, worse: DiaryRequest)
    requires ValidAnswers(req) && ValidAnswers(worse)
    requires req.drinking <= worse.drinking && req.smoking <= worse.smoking
    requires req.exercise <= worse.exercise && req.diet <= worse.diet && req.sleep <= worse.sleep
    ensures ImpactSum(worse) <= ImpactSum(req)
  {
    Drinking.OfOptionMonotone(req.drinking, worse.drinking);
    Smoking.OfOptionMonotone(req.smoking, worse.smoking);
    Exercise.OfOptionMonotone(req.exercise, worse.exercise);
    Diet.OfOptionMonotone(req.diet, worse.diet);
    Sleep.OfOptionMonotone(req.sleep, worse.sleep);
  }

  /** Raising one option number, the others fixed, never raises the score. */
  lemma HealthScoreMonotone(req: DiaryRequest, worse: DiaryRequest)
    requires ValidAnswers(req) && ValidAnswers(worse)
    requires req.drinking <= worse.drinking && req.smoking <= worse.smoking
    requires req.exercise <= worse.exercise && req.diet <= worse.diet && req.sleep <= worse.sleep
    ensures HealthScore(worse).value <= HealthScore(req).value
  {
    ImpactSumMonotone(req, worse);
    assert HealthScore(worse).value == 100 + ImpactSum(worse);
    assert HealthScore(req).value == 100 + ImpactSum(req);
  }

  /** The repository's existence test: a diary of the user created inside
      the window, both ends included. */
  predicate ExistsBetween(diaries: seq<Diary>, userId: int, start: DateTime, end: DateTime) {
    exists i :: 0 <= i < |diaries| && diaries[i].userId == userId && Between(diaries[i].createdAt, start, end)
  }

  /** No user has two diaries created on the same day. */
  ghost predicate OnePerDay(diaries: seq<Diary>) {
    forall i, j :: 0 <= i < j < |diaries| && diaries[i].userId == diaries[j].userId ==>
      diaries[i].createdAt.date != diaries[j].createdAt.date
  }

  /** The saved diaries. */
  class DiaryStore {
    var diaries: seq<Diary>

    ghost predicate Valid()
      reads this
    {
      (forall i :: 0 <= i < |diaries| ==> ValidDateTime(diaries[i].createdAt)) && OnePerDay(diaries)
    }

    constructor ()
      ensures diaries == [] && Valid()
    {
      diaries := [];
    }

    /** `createDiary`, with `userExists` the outcome of the user lookup and
        `now` the clock: the user must exist, the user must have no diary
        today, and the answers must be valid; then the scored diary is
        appended. Every failure leaves the store as it was. */
    method CreateDiary(userId: int, userExists: bool, req: DiaryRequest, now: DateTime, newId: int)
      returns (r: Result<Diary>)
      requires Valid() && ValidDateTime(now)
      modifies this
      ensures Valid()
      ensures !userExists ==> r == Err(UserNotFound)
      ensures userExists && ExistsBetween(old(diaries), userId, AtStartOfDay(now.date), AtEndOfDay(now.date))
              ==> r == Err(DiaryAlreadyExists)
      ensures userExists && !ExistsBetween(old(diaries), userId, AtStartOfDay(now.date), AtEndOfDay(now.date))
              ==> r.Ok? == ValidAnswers(req)
      ensures r.Err? ==> diaries == old(diaries)
      ensures r.Ok? ==>
        r.value == Diary(newId, userId, req.drinking, req.smoking, req.exercise, req.diet, req.sleep,
                         HealthScore(req).value, now)
        && diaries == old(diaries) + [r.value]
    {
      if !userExists {
        return Err(UserNotFound);
      }
      var today := now.date;
      var startOfDay := AtStartOfDay(today);
      var endOfDay := AtEndOfDay(today);
      if ExistsBetween(diaries, userId, startOfDay, endOfDay) {
        return Err(DiaryAlreadyExists);
      }
      var healthScore := HealthScore(req);
      if healthScore.Err? {
        return Err(healthScore.error);
      }
      var diary := Diary(newId, userId, req.drinking, req.smoking, req.exercise, req.diet, req.sleep,
                         healthScore.value, now);
      SavingKeepsOnePerDay(diaries, diary);
      diaries := diaries + [diary];
      r := Ok(diary);
    }
  }

  /** The guard is what keeps the invariant: a diary whose day's window
      holds none of its user's diaries can be appended. */
  lemma SavingKeepsOnePerDay(diaries: seq<Diary>, diary: Diary)
    requires forall i :: 0 <= i < |diaries| ==> ValidDateTime(diaries[i].createdAt)
    requires OnePerDay(diaries)
    requires !ExistsBetween(diaries, diary.userId, AtStartOfDay(diary.createdAt.date), AtEndOfDay(diary.createdAt.date))
    ensures OnePerDay(diaries + [diary])
  {
    var s := diaries + [diary];
    forall i, j | 0 <= i < j < |s| && s[i].userId == s[j].userId
      ensures s[i].createdAt.date != s[j].createdAt.date
    {
      if j == |diaries| {
        DayWindow(diaries[i].createdAt, diary.createdAt.date);
      }
    }
  }

  /** A second diary on the same day is refused, whatever its answers. */
  lemma SecondDiaryRefused(diaries: seq<Diary>, first: Diary, now: DateTime)
    requires first in diaries && first.createdAt.date == now.date && ValidDateTime(first.createdAt)
    ensures ExistsBetween(diaries, first.userId, AtStartOfDay(now.date), AtEndOfDay(now.date))
  {
    var i :| 0 <= i < |diaries| && diaries[i] == first;
    DayWindow(first.createdAt, now.date);
  }
}
