/** `DiagnosisResponseDTO.from`: the survey result as sent to the app, with
    the score also given as a percentage of the maximum of five findings. */
module DiagnosisResponse {
  import opened DiagnosisEntity

  datatype DiagnosisResponse<H> = DiagnosisResponse(
    face: bool,
    speech: bool,
    orientation: int,
    gaze: int,
    arm: int,
    totalScore: int,
    totalScorePercentage: int,
    llmResult: string,
    hospitalList: seq<H>)

  /** Each finding is worth a fifth of the scale. */
  const PercentPerFinding: int := 20

  /** Reads the score back from a percentage. */
  function ScoreOfPercentage(percentage: int): int {
    percentage / PercentPerFinding
  }

  function From<H>(d: DiagnosisState, llmResult: string, hospitalList: seq<H>): (r: DiagnosisResponse<H>)
    ensures r.face == d.face && r.speech == d.speech && r.orientation == d.orientation
    ensures r.gaze == d.gaze && r.arm == d.arm && r.totalScore == d.totalScore
    ensures r.llmResult == llmResult && r.hospitalList == hospitalList
    ensures r.totalScorePercentage % PercentPerFinding == 0
    ensures ScoreOfPercentage(r.totalScorePercentage) == d.totalScore
  {
    DiagnosisResponse(d.face, d.speech, d.orientation, d.gaze, d.arm, d.totalScore,
                      d.totalScore * PercentPerFinding, llmResult, hospitalList)
  }

  /** A score within its declared range is a percentage in [0, 100], a full
      score is exactly 100, and every further finding adds the same step. */
  lemma PercentageScale<H>(d: DiagnosisState, llmResult: string, hospitalList: seq<H>)
    requires InDeclaredBounds(d)
    ensures 0 <= From(d, llmResult, hospitalList).totalScorePercentage <= 100
    ensures From(d, llmResult, hospitalList).totalScorePercentage == 100 <==> d.totalScore == 5
    ensures From(d, llmResult, hospitalList).totalScorePercentage == 0 <==> d.totalScore == 0
  {
  }

  /** More findings never give a lower percentage. */
  lemma PercentageMonotone<H>(d: DiagnosisState, e: DiagnosisState, llmResult: string, hospitalList: seq<H>)
    requires d.totalScore <= e.totalScore
    ensures From(d, llmResult, hospitalList).totalScorePercentage
         <= From(e, llmResult, hospitalList).totalScorePercentage
  {
  }
}
