/** The diagnosis service: the AI step that records face and speech
    predictions, and the survey step that computes the age, the orientation
    finding, the total score and the symptom narrative, and completes the
    latest diagnosis in place. The clock, the repositories, the uploads, the
    AI servers and the language model are parameters. */
module DiagnosisCommand {
  import opened Errors
  import opened Text
  import opened Calendar
  import opened DiagnosisEntity
  import opened DiagnosisResponse
  import OH = OpeningHour
  import opened Hospital
  import HospitalQuery
  import S3Provider

  // ---------------------------------------------------------------------
  // Age on a given day
  // ---------------------------------------------------------------------

  /** Today's (month, day) comes before the birthday's. */
  predicate BirthdayNotYet(birth: Date, today: Date) {
    today.month < birth.month || (today.month == birth.month && today.day < birth.day)
  }

  /** The age in completed years, as the survey step computes it. */
  function Age(birth: Date, today: Date): int {
    today.year - birth.year - (if BirthdayNotYet(birth, today) then 1 else 0)
  }

  /** The anniversary of `birth` in its `n`-th year. */
  function Anniversary(birth: Date, n: int): Date {
    Date(birth.year + n, birth.month, birth.day)
  }

  /** The age is the number of anniversaries reached: the `age`-th has come
      by today and the next one has not, and no other number has both
      properties. */
  lemma AgeCountsAnniversaries(birth: Date, today: Date, n: int)
    ensures DateLe(Anniversary(birth, Age(birth, today)), today)
    ensures !DateLe(Anniversary(birth, Age(birth, today) + 1), today)
    ensures DateLe(Anniversary(birth, n), today) && !DateLe(Anniversary(birth, n + 1), today)
            <==> n == Age(birth, today)
  {
  }

  /** One day before the birthday and on the birthday itself. */
  lemma AgeOnBirthday()
    ensures Age(Date(1990, 6, 15), Date(2025, 6, 14)) == 34
    ensures Age(Date(1990, 6, 15), Date(2025, 6, 15)) == 35
  {
  }

  // ---------------------------------------------------------------------
  // Orientation, score and narrative
  // ---------------------------------------------------------------------

  /** The orientation finding: 1 only when both the month guess and the age
      guess are wrong. */
  function Orientation(request: SelfDiagnosisRequest, todayMonth: int, age: int): (o: int)
    ensures o == 0 || o == 1
    ensures o == 1 <==> request.orientationMonth != todayMonth && request.orientationAge != age
  {
    var isMonthCorrect := request.orientationMonth == todayMonth;
    var isAgeCorrect := request.orientationAge == age;
    if !isMonthCorrect && !isAgeCorrect then 1 else 0
  }

  function TotalScore(orientation: int, gaze: int, arm: int, face: bool, speech: bool): int {
    orientation + gaze + arm + (if face then 1 else 0) + (if speech then 1 else 0)
  }

  /** How many of the flags are set. */
  function CountPresent(flags: seq<bool>): (n: nat)
    ensures n <= |flags|
  {
    if flags == [] then 0 else (if flags[0] then 1 else 0) + CountPresent(flags[1..])
  }

  /** With 0/1 answers the total score counts the findings present, and so
      lies in [0, 5]. */
  lemma {:induction false} TotalScoreCountsFindings(orientation: int, gaze: int, arm: int, face: bool, speech: bool)
    requires 0 <= orientation <= 1 && 0 <= gaze <= 1 && 0 <= arm <= 1
    ensures TotalScore(orientation, gaze, arm, face, speech)
         == CountPresent([orientation == 1, gaze == 1, arm == 1, face, speech])
    ensures 0 <= TotalScore(orientation, gaze, arm, face, speech) <= 5
  {
    var f4 := [speech];
    var f3 := [face] + f4;
    var f2 := [arm == 1] + f3;
    var f1 := [gaze == 1] + f2;
    var f0 := [orientation == 1] + f1;
    assert f4[1..] == [] && f3[1..] == f4 && f2[1..] == f3 && f1[1..] == f2 && f0[1..] == f1;
    assert CountPresent(f4) == (if speech then 1 else 0) + CountPresent([]);
    assert CountPresent(f3) == (if face then 1 else 0) + CountPresent(f4);
    assert CountPresent(f2) == arm + CountPresent(f3);
    assert CountPresent(f1) == gaze + CountPresent(f2);
    assert CountPresent(f0) == orientation + CountPresent(f1);
    assert f0 == [orientation == 1, gaze == 1, arm == 1, face, speech];
  }

  /** The six findings the narrative reports, in its order. */
  datatype Findings = Findings(gaze: bool, arm: bool, face: bool, speech: bool, monthWrong: bool, ageWrong: bool)

  function FindingList(f: Findings): seq<bool> {
    [f.gaze, f.arm, f.face, f.speech, f.monthWrong, f.ageWrong]
  }

  /** The findings of a survey: a survey answer counts when it is 1, and a
      guess counts when it is wrong. */
  function SurveyFindings(request: SelfDiagnosisRequest, face: bool, speech: bool,
                          isMonthCorrect: bool, isAgeCorrect: bool): Findings
  {
    Findings(request.gaze == 1, request.arm == 1, face, speech, !isMonthCorrect, !isAgeCorrect)
  }

  /** "있음" (present) or "없음" (absent). */
  function Mark(present: bool): (w: string)
    ensures |w| == 2
    ensures w == "있음" <==> present
    ensures !present ==> w == "없음"
  {
    if present then "있음" else "없음"
  }

  /** The fixed text before each finding's mark, in order. */
  const Labels: seq<string> := [
    "환자는 시선 이상 ", ", 팔 움직임 이상 ", ", 안면 마비 ",
    ", 구음 장애 ", ", 시간 인지 이상 ", ", 나이 인지 이상 "]

  /** Each label followed by the mark of its finding. */
  function Sentence(labels: seq<string>, flags: seq<bool>): (s: string)
    requires |labels| == |flags|
  {
    if flags == [] then "" else labels[0] + Mark(flags[0]) + Sentence(labels[1..], flags[1..])
  }

  /** The symptom sentence handed to the language model. */
  function Narrative(f: Findings): string {
    Sentence(Labels, FindingList(f))
  }

  lemma Middle(x: string, w: string, y: string)
    ensures (x + w + y)[|x|..|x| + |w|] == w
    ensures (x + w + y)[|x| + |w|..] == y
  {
    var s := x + w + y;
    assert forall i :: 0 <= i < |w| ==> s[|x| + i] == w[i];
    assert forall i :: 0 <= i < |y| ==> s[|x| + |w| + i] == y[i];
  }

  /** With the same labels, the marks can be read back: equal sentences
      come from equal findings. */
  lemma {:induction false} SentenceInjective(labels: seq<string>, a: seq<bool>, b: seq<bool>)
    requires |labels| == |a| == |b|
    requires Sentence(labels, a) == Sentence(labels, b)
    ensures a == b
  {
    if a != [] {
      var l := labels[0];
      var ra, rb := Sentence(labels[1..], a[1..]), Sentence(labels[1..], b[1..]);
      Middle(l, Mark(a[0]), ra);
      Middle(l, Mark(b[0]), rb);
      assert Mark(a[0]) == Mark(b[0]);
      SentenceInjective(labels[1..], a[1..], b[1..]);
      assert a == [a[0]] + a[1..] && b == [b[0]] + b[1..];
    }
  }

  /** The sentence loses nothing: different findings give different sentences. */
  lemma NarrativeInjective(f: Findings, g: Findings)
    requires Narrative(f) == Narrative(g)
    ensures f == g
  {
    SentenceInjective(Labels, FindingList(f), FindingList(g));
    assert FindingList(f)[0] == FindingList(g)[0] && FindingList(f)[5] == FindingList(g)[5];
  }

  /** The orientation finding is set exactly when the sentence reports both
      the month and the age guess as wrong. */
  lemma OrientationMatchesNarrative(request: SelfDiagnosisRequest, today: Date, age: int, face: bool, speech: bool)
    ensures var f := SurveyFindings(request, face, speech,
                                    request.orientationMonth == today.month, request.orientationAge == age);
      Orientation(request, today.month, age) == 1 <==> f.monthWrong && f.ageWrong
  {
  }

  // ---------------------------------------------------------------------
  // Upload extensions
  // ---------------------------------------------------------------------

  const VideoExtensions: seq<string> := ["mp4", "mov"]
  const AudioExtensions: seq<string> := ["wav", "pcm", "m4a"]

  /** Some allowed extension, with its dot, ends the (lower-cased) name. */
  function AnyExtensionMatches(lower: string, allowed: seq<string>): (b: bool)
    ensures b <==> exists k :: 0 <= k < |allowed| && EndsWith(lower, "." + allowed[k])
  {
    if allowed == [] then false
    else
      var rest := AnyExtensionMatches(lower, allowed[1..]);
      assert forall k :: 1 <= k < |allowed| ==> allowed[k] == allowed[1..][k - 1];
      EndsWith(lower, "." + allowed[0]) || rest
  }

  /** `validateExtension`: a missing name or one that does not end, in any
      letter case, with "." and an allowed extension is refused. */
  function ValidateExtension(filename: Option<string>, allowed: seq<string>): (r: Result<()>)
    ensures r.Ok? <==>
      filename.Some? && exists k :: 0 <= k < |allowed| && EndsWith(ToLower(filename.value), "." + allowed[k])
    ensures r.Err? ==> r.error == FileExtensionNotSupported
  {
    if filename.None? || !AnyExtensionMatches(ToLower(filename.value), allowed)
    then Err(FileExtensionNotSupported)
    else Ok(())
  }

  /** The letter case of the name does not matter. */
  lemma ExtensionIgnoresCase(name: string, allowed: seq<string>)
    ensures ValidateExtension(Some(ToLower(name)), allowed) == ValidateExtension(Some(name), allowed)
  {
    ToLowerIdempotent(name);
  }

  /** Any stem followed by "." and an allowed (lower-case) extension passes. */
  lemma AllowedNameAccepted(stem: string, allowed: seq<string>, k: nat)
    requires k < |allowed| && ToLower(allowed[k]) == allowed[k]
    ensures ValidateExtension(Some(stem + "." + allowed[k]), allowed).Ok?
  {
    var suffix := "." + allowed[k];
    var name := stem + "." + allowed[k];
    assert name == stem + suffix;
    LowerSuffix(stem, allowed[k]);
    assert EndsWith(ToLower(name), "." + allowed[k]);
    assert AnyExtensionMatches(ToLower(name), allowed);
  }

  lemma LowerSuffix(stem: string, ext: string)
    requires ToLower(ext) == ext
    ensures EndsWith(ToLower(stem + ("." + ext)), "." + ext)
  {
    ToLowerAppend(".", ext);
    ToLowerAppend(stem, "." + ext);
    EndsWithAppend(ToLower(stem), "." + ext);
  }

  /** A name without a dot never passes, whatever the allowed list. */
  lemma DotlessNameRefused(name: string, allowed: seq<string>)
    requires '.' !in name
    ensures ValidateExtension(Some(name), allowed) == Err(FileExtensionNotSupported)
  {
    var lower := ToLower(name);
    forall k | 0 <= k < |allowed| ensures !EndsWith(lower, "." + allowed[k]) {
      var i := |lower| - |"." + allowed[k]|;
      assert 0 <= i ==> lower[i] != '.';
    }
  }

  // ---------------------------------------------------------------------
  // aiDiagnosis
  // ---------------------------------------------------------------------

  /** The `prediction` and `probability` entries of an AI server's answer. */
  datatype AiAnswer = AiAnswer(prediction: int, probability: real)

  datatype AiDiagnosisResponse = AiDiagnosisResponse(
    face: bool, faceProbability: real, speech: bool, speechProbability: real)

  /** A prediction means a finding exactly when it is 1. */
  function PredictionFlag(prediction: int): bool
  {
    prediction == 1
  }

  /** `aiDiagnosis`: the user must exist and both files must carry an
      allowed extension; both files are then uploaded (`videoStreamOpens`
      and `audioStreamOpens` say whether their streams could be read) and
      sent to the AI servers (`None` when a call fails). The new diagnosis
      is saved, and the entity's declared bounds are checked as it is
      written. */
  method AiDiagnosis(userId: int, userExists: bool, videoName: Option<string>, audioName: Option<string>,
                     videoStreamOpens: bool, audioStreamOpens: bool, videoUuid: string, audioUuid: string,
                     urlOf: string -> string, faceAnswer: Option<AiAnswer>, speechAnswer: Option<AiAnswer>,
                     newId: int)
    returns (r: Result<AiDiagnosisResponse>, saved: Option<Diagnosis>)
    ensures !userExists ==> r == Err(UserNotFound)
    ensures userExists && ValidateExtension(videoName, VideoExtensions).Err? ==> r == Err(FileExtensionNotSupported)
    ensures userExists && ValidateExtension(audioName, AudioExtensions).Err? ==> r == Err(FileExtensionNotSupported)
    ensures ExtensionsAccepted(userExists, videoName, audioName) && !(videoStreamOpens && audioStreamOpens) ==>
      r == Err(FileUploadFailed)
    ensures ExtensionsAccepted(userExists, videoName, audioName) && videoStreamOpens && audioStreamOpens
            && (faceAnswer.None? || speechAnswer.None?) ==>
      r == Err(Raised(ResponseStatus))
    ensures ExtensionsAccepted(userExists, videoName, audioName) && videoStreamOpens && audioStreamOpens
            && faceAnswer.Some? && speechAnswer.Some?
            && !InDeclaredBounds(NewDiagnosis(newId, userId, faceAnswer.value, speechAnswer.value)) ==>
      r == Err(Raised(ConstraintViolation))
    ensures r.Ok? <==>
      ExtensionsAccepted(userExists, videoName, audioName) && videoStreamOpens && audioStreamOpens
      && faceAnswer.Some? && speechAnswer.Some?
      && InDeclaredBounds(NewDiagnosis(newId, userId, faceAnswer.value, speechAnswer.value))
    ensures r.Err? ==> saved.None?
    ensures r.Ok? ==>
      r.value == AiDiagnosisResponse(PredictionFlag(faceAnswer.value.prediction), faceAnswer.value.probability,
                                     PredictionFlag(speechAnswer.value.prediction), speechAnswer.value.probability)
      && saved.Some? && fresh(saved.value)
      && saved.value.State() == NewDiagnosis(newId, userId, faceAnswer.value, speechAnswer.value)
  {
    saved := None;
    if !userExists {
      return Err(UserNotFound), saved;
    }
    var video := ValidateExtension(videoName, VideoExtensions);
    if video.Err? {
      return Err(video.error), saved;
    }
    var audio := ValidateExtension(audioName, AudioExtensions);
    if audio.Err? {
      return Err(audio.error), saved;
    }
    var videoUrl := S3Provider.UploadFile(videoName, userId, "video", videoUuid, videoStreamOpens, urlOf);
    if videoUrl.Err? {
      return Err(videoUrl.error), saved;
    }
    var audioUrl := S3Provider.UploadFile(audioName, userId, "audio", audioUuid, audioStreamOpens, urlOf);
    if audioUrl.Err? {
      return Err(audioUrl.error), saved;
    }
    if faceAnswer.None? {
      return Err(Raised(ResponseStatus)), saved;
    }
    var facePrediction := PredictionFlag(faceAnswer.value.prediction);
    var faceProbability := faceAnswer.value.probability;
    if speechAnswer.None? {
      return Err(Raised(ResponseStatus)), saved;
    }
    var speechPrediction := PredictionFlag(speechAnswer.value.prediction);
    var speechProbability := speechAnswer.value.probability;
    var diagnosis := new Diagnosis(newId, userId, facePrediction, faceProbability,
                                   speechPrediction, speechProbability);
    if !InDeclaredBounds(diagnosis.State()) {
      return Err(Raised(ConstraintViolation)), saved;
    }
    saved := Some(diagnosis);
    r := Ok(AiDiagnosisResponse(facePrediction, faceProbability, speechPrediction, speechProbability));
  }

  /** The user exists and both file names pass the extension check. */
  predicate ExtensionsAccepted(userExists: bool, videoName: Option<string>, audioName: Option<string>) {
    userExists && ValidateExtension(videoName, VideoExtensions).Ok?
    && ValidateExtension(audioName, AudioExtensions).Ok?
  }

  /** The diagnosis `aiDiagnosis` builds: both answers, and survey fields at 0. */
  function NewDiagnosis(id: int, userId: int, faceAnswer: AiAnswer, speechAnswer: AiAnswer): DiagnosisState {
    DiagnosisState(id, userId, PredictionFlag(faceAnswer.prediction), faceAnswer.probability,
                   PredictionFlag(speechAnswer.prediction), speechAnswer.probability, 0, 0, 0, 0)
  }

  /** Probabilities within [0, 1] always pass the check made when saving. */
  lemma ProbabilitiesAccepted(id: int, userId: int, faceAnswer: AiAnswer, speechAnswer: AiAnswer)
    requires 0.0 <= faceAnswer.probability <= 1.0 && 0.0 <= speechAnswer.probability <= 1.0
    ensures InDeclaredBounds(NewDiagnosis(id, userId, faceAnswer, speechAnswer))
  {
  }

  // ---------------------------------------------------------------------
  // Recommended hospitals
  // ---------------------------------------------------------------------

  /** The open flag of a recommended hospital: an emergency room is open,
      a hospital without opening hours is closed, and otherwise the entity's
      own test decides. The `null` check comes first, so no
      `NullPointerException` can arise. */
  function RecommendedOpen(h: Hospital, today: OH.DayOfWeek, now: OH.MinuteOfDay): (r: Result<bool>)
    ensures h.emergency ==> r == Ok(true)
    ensures !h.emergency && h.openingHour.None? ==> r == Ok(false)
    ensures h.openingHour.Some? ==> r == IsOpenNow(h, today, now)
    ensures r != Err(Raised(NullPointer))
  {
    if h.emergency then Ok(true)
    else if h.openingHour.None? then Ok(false)
    else IsOpenNow(h, today, now)
  }

  /** The map modal and the recommendation disagree on an emergency room
      without opening hours: the modal shows it closed, the recommendation
      open. */
  lemma ModalClosesEmergencyRoom(h: Hospital, findById: int -> Option<Hospital>, distanceTo: Hospital -> real,
                                 today: OH.DayOfWeek, now: OH.MinuteOfDay)
    requires findById(h.id) == Some(h)
    requires h.emergency && h.openingHour.None?
    ensures HospitalQuery.GetHospitalModal(h.id, findById, distanceTo, today, now).value.isOpen == false
    ensures RecommendedOpen(h, today, now) == Ok(true)
  {
  }

  /** The corrected modal shows what the recommendation shows, for every hospital. */
  lemma CorrectedModalAgrees(h: Hospital, findById: int -> Option<Hospital>, distanceTo: Hospital -> real,
                             today: OH.DayOfWeek, now: OH.MinuteOfDay)
    requires findById(h.id) == Some(h)
    ensures var m := HospitalQuery.GetHospitalModalCorrected(h.id, findById, distanceTo, today, now);
      match RecommendedOpen(h, today, now)
      case Ok(open) => m.Ok? && m.value.isOpen == open
      case Err(e) => m == Err(e)
  {
  }

  // ---------------------------------------------------------------------
  // selfDiagnosis
  // ---------------------------------------------------------------------

  /** `selfDiagnosis`: `latest` is the user's most recent diagnosis and
      `birth` the user's birth date, each absent when the lookup fails.
      The age, orientation and score are computed, the narrative goes to
      `analyzeSymptoms`, the diagnosis is updated in place, and the response
      carries the updated diagnosis, the model's answer and the hospitals.
      An update that breaks the entity's declared bounds is refused when it
      is written, and the transaction leaves the diagnosis as it was. */
  method SelfDiagnosis<H>(latest: Option<Diagnosis>, birth: Option<Date>, today: Date,
                          request: SelfDiagnosisRequest, analyzeSymptoms: string -> string,
                          hospitalList: seq<H>)
    returns (r: Result<DiagnosisResponse<H>>)
    modifies if latest.Some? then {latest.value} else {}
    ensures latest.None? ==> r == Err(DiagnosisNotFound)
    ensures latest.Some? && birth.None? ==> r == Err(UserNotFound) && unchanged(latest.value)
    ensures latest.Some? && birth.Some? ==>
      var d := latest.value;
      var age := Age(birth.value, today);
      var orientation := Orientation(request, today.month, age);
      var totalScore := TotalScore(orientation, request.gaze, request.arm, old(d.face), old(d.speech));
      var findings := SurveyFindings(request, old(d.face), old(d.speech),
                                     request.orientationMonth == today.month, request.orientationAge == age);
      var updated := Updated(old(d.State()), request, orientation, totalScore);
      if InDeclaredBounds(updated) then
        d.State() == updated && r == Ok(From(updated, analyzeSymptoms(Narrative(findings)), hospitalList))
      else
        r == Err(Raised(ConstraintViolation)) && unchanged(d)
  {
    if latest.None? {
      return Err(DiagnosisNotFound);
    }
    var diagnosis := latest.value;
    if birth.None? {
      return Err(UserNotFound);
    }
    var b := birth.value;
    var age := today.year - b.year;
    if today.month < b.month || (today.month == b.month && today.day < b.day) {
      age := age - 1;
    }
    var isMonthCorrect := request.orientationMonth == today.month;
    var isAgeCorrect := request.orientationAge == age;
    var orientation := if !isMonthCorrect && !isAgeCorrect then 1 else 0;
    var totalScore := orientation + request.gaze + request.arm
                      + (if diagnosis.face then 1 else 0) + (if diagnosis.speech then 1 else 0);
    var symptoms := Narrative(SurveyFindings(request, diagnosis.face, diagnosis.speech, isMonthCorrect, isAgeCorrect));
    var llmResult := analyzeSymptoms(symptoms);
    if !InDeclaredBounds(Updated(diagnosis.State(), request, orientation, totalScore)) {
      // the update fails validation when it is flushed, and the transaction rolls back
      return Err(Raised(ConstraintViolation));
    }
    diagnosis.UpdateDiagnosis(request, orientation, totalScore);
    r := Ok(From(diagnosis.State(), llmResult, hospitalList));
  }

  /** With 0/1 answers the updated diagnosis stays within its declared
      bounds and its percentage within [0, 100]. */
  lemma SurveyKeepsBounds(d: DiagnosisState, birth: Date, today: Date, request: SelfDiagnosisRequest)
    requires InDeclaredBounds(d)
    requires 0 <= request.gaze <= 1 && 0 <= request.arm <= 1
    ensures var orientation := Orientation(request, today.month, Age(birth, today));
      InDeclaredBounds(Updated(d, request, orientation,
                               TotalScore(orientation, request.gaze, request.arm, d.face, d.speech)))
  {
    var orientation := Orientation(request, today.month, Age(birth, today));
    TotalScoreCountsFindings(orientation, request.gaze, request.arm, d.face, d.speech);
  }
}
