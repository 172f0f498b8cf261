/** The health-result screen's reading of the answers: a status text and
    colour per answer score, a missing answer counted as 0, and the badge
    a full score earns. */
module HealthResult {
  import opened Errors

  datatype Status = Status(text: string, color: string)

  /** The four named statuses, mildest first. */
  const Severities: seq<string> := ["정상", "주의", "경고", "위험"]

  /** `mapStatus`: 1 and 2 are normal, 3 caution, 4 warning, 5 danger;
      anything else is shown as "-". */
  function MapStatus(score: int): (s: Status)
    ensures s.text == "-" <==> !(1 <= score <= 5)
    ensures 1 <= score <= 5 ==> s.text == Severities[Severity(score)]
  {
    match score
    case 1 => Status("정상", "#4CAF50")
    case 2 => Status("정상", "#4CAF50")
    case 3 => Status("주의", "#FFEB3B")
    case 4 => Status("경고", "#FF9800")
    case 5 => Status("위험", "#F44336")
    case _ => Status("-", "#CCC")
  }

  /** The reference grading: the index into `Severities` of a score in 1..5. */
  function Severity(score: int): (level: nat)
    requires 1 <= score <= 5
    ensures level < |Severities|
  {
    if score <= 2 then 0 else score - 2
  }

  /** A higher score never shows a milder status. */
  lemma StatusMonotone(a: int, b: int)
    requires 1 <= a <= b <= 5
    ensures Severity(a) <= Severity(b)
    ensures MapStatus(a).text == MapStatus(b).text ==> Severity(a) == Severity(b)
  {
  }

  /** The colour goes with the text: equal texts never differ in colour. */
  lemma ColorFollowsText(a: int, b: int)
    ensures MapStatus(a).text == MapStatus(b).text ==> MapStatus(a).color == MapStatus(b).color
  {
  }

  /** `answers[key] ?? 0`. */
  function AnswerScore(answer: Option<int>): int
  {
    match answer
    case Some(v) => v
    case None => 0
  }

  /** An unanswered question shows "-". */
  lemma MissingAnswerUnknown()
    ensures MapStatus(AnswerScore(None)).text == "-"
  {
  }

  /** `isFull`: only the score 5 earns the "건강" badge, everything else "노력!". */
  function Badge(answer: Option<int>): (text: string)
    ensures text == "건강" <==> answer == Some(5)
    ensures text != "건강" ==> text == "노력!"
  {
    var score := AnswerScore(answer);
    var isFull := score == 5;
    if isFull then "건강" else "노력!"
  }

  /** As written, the "건강" (healthy) badge is earned exactly when the
      same answer shows the most severe status, "위험" (danger). */
  lemma BadgeMeansTopStatus(answer: Option<int>)
    ensures Badge(answer) == "건강" <==> MapStatus(AnswerScore(answer)).text == Severities[|Severities| - 1]
  {
  }

  /** The badge read on the status scale: "건강" exactly for an answer whose
      status is the mildest, "정상" (normal). */
  function BadgeCorrected(answer: Option<int>): (text: string)
    ensures text == "건강" <==> MapStatus(AnswerScore(answer)).text == Severities[0]
    ensures text != "건강" ==> text == "노력!"
    ensures answer == Some(5) ==> text == "노력!"
  {
    var score := AnswerScore(answer);
    if 1 <= score <= 2 then "건강" else "노력!"
  }
}
