/** The `Diagnosis` entity: the AI results of a self-check, completed in
    place by the survey answers and their score. */
module DiagnosisEntity {

  /** The survey answers the scoring reads: the month and age guesses of the
      orientation question and the 0/1 gaze and arm findings. */
  datatype SelfDiagnosisRequest = SelfDiagnosisRequest(
    orientationMonth: int,
    orientationAge: int,
    gaze: int,
    arm: int)

  /** A snapshot of the entity's columns; `userId` stands for the owning user. */
  datatype DiagnosisState = DiagnosisState(
    id: int,
    userId: int,
    face: bool,
    faceProbability: real,
    speech: bool,
    speechProbability: real,
    gaze: int,
    orientation: int,
    arm: int,
    totalScore: int)

  /** The `@Min`/`@Max` bounds declared on the columns. */
  predicate InDeclaredBounds(s: DiagnosisState) {
    0.0 <= s.faceProbability <= 1.0 && 0.0 <= s.speechProbability <= 1.0
    && 0 <= s.gaze <= 1 && 0 <= s.orientation <= 1 && 0 <= s.arm <= 1
    && 0 <= s.totalScore <= 5
  }

  /** The AI part of a diagnosis: what the survey must never touch. */
  function AiPart(s: DiagnosisState): (int, int, bool, real, bool, real) {
    (s.id, s.userId, s.face, s.faceProbability, s.speech, s.speechProbability)
  }

  /** The survey part of a diagnosis. */
  function SurveyPart(s: DiagnosisState): (int, int, int, int) {
    (s.gaze, s.orientation, s.arm, s.totalScore)
  }

  /** The state `updateDiagnosis(dto, orientation, totalScore)` leaves behind. */
  function Updated(s: DiagnosisState, dto: SelfDiagnosisRequest, orientation: int, totalScore: int)
    : (r: DiagnosisState)
    ensures AiPart(r) == AiPart(s)
    ensures SurveyPart(r) == (dto.gaze, orientation, dto.arm, totalScore)
  {
    s.(orientation := orientation, gaze := dto.gaze, arm := dto.arm, totalScore := totalScore)
  }

  /** A diagnosis is its AI part and its survey part, nothing more. */
  lemma {:induction false} PartsDetermineState(a: DiagnosisState, b: DiagnosisState)
    requires AiPart(a) == AiPart(b) && SurveyPart(a) == SurveyPart(b)
    ensures a == b
  {
    assert a.id == b.id && a.face == b.face && a.gaze == b.gaze;
  }

  /** The update overwrites: applying it twice is applying it once, and what
      was there before it does not matter. */
  lemma UpdateIdempotent(s: DiagnosisState, dto: SelfDiagnosisRequest, orientation: int, totalScore: int)
    ensures Updated(Updated(s, dto, orientation, totalScore), dto, orientation, totalScore)
         == Updated(s, dto, orientation, totalScore)
  {
  }

  lemma {:induction false} UpdateForgetsSurvey(s: DiagnosisState, t: DiagnosisState, dto: SelfDiagnosisRequest,
                                               orientation: int, totalScore: int)
    requires AiPart(s) == AiPart(t)
    ensures Updated(s, dto, orientation, totalScore) == Updated(t, dto, orientation, totalScore)
  {
    PartsDetermineState(Updated(s, dto, orientation, totalScore), Updated(t, dto, orientation, totalScore));
  }

  /** Answers and a score within their declared ranges keep the entity within its bounds. */
  lemma UpdateKeepsBounds(s: DiagnosisState, dto: SelfDiagnosisRequest, orientation: int, totalScore: int)
    requires InDeclaredBounds(s)
    requires 0 <= dto.gaze <= 1 && 0 <= dto.arm <= 1 && 0 <= orientation <= 1 && 0 <= totalScore <= 5
    ensures InDeclaredBounds(Updated(s, dto, orientation, totalScore))
  {
  }

  class Diagnosis {
    var id: int
    var userId: int
    var face: bool
    var faceProbability: real
    var speech: bool
    var speechProbability: real
    var gaze: int
    var orientation: int
    var arm: int
    var totalScore: int

    function State(): DiagnosisState
      reads this
    {
      DiagnosisState(id, userId, face, faceProbability, speech, speechProbability,
                     gaze, orientation, arm, totalScore)
    }

    /** The builder call of the AI step: the AI results are set and the
        survey columns keep their zero defaults. */
    constructor (id: int, userId: int, face: bool, faceProbability: real, speech: bool, speechProbability: real)
      ensures State() == DiagnosisState(id, userId, face, faceProbability, speech, speechProbability, 0, 0, 0, 0)
    {
      this.id := id;
      this.userId := userId;
      this.face := face;
      this.faceProbability := faceProbability;
      this.speech := speech;
      this.speechProbability := speechProbability;
      this.gaze := 0;
      this.orientation := 0;
      this.arm := 0;
      this.totalScore := 0;
    }

    /** `updateDiagnosis`: the four survey columns are assigned, the AI
        columns stay as they were. */
    method UpdateDiagnosis(dto: SelfDiagnosisRequest, orientation: int, totalScore: int)
      modifies this
      ensures State() == Updated(old(State()), dto, orientation, totalScore)
    {
      this.orientation := orientation;
      this.gaze := dto.gaze;
      this.arm := dto.arm;
      this.totalScore := totalScore;
    }
  }
}
