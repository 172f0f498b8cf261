/** The sign-up form checks of the app: a blank test and the three field
    checks of `validateSignup`, each giving an error message or "". */
module Validate {
  import opened Text

  /** `isBlank`: nothing is left once JavaScript's `trim` has run. */
  function IsBlank(value: string): (b: bool)
    ensures b <==> forall i :: 0 <= i < |value| ==> IsJsWhitespace(value[i])
  {
    JsTrim(value) == ""
  }

  /** The form values. `gender` is declared 'MALE' | 'FEMALE' but may hold
      any string at run time, which is what the check is for. */
  datatype SignupValues = SignupValues(gender: string, birth: string, isFaceRecognitionAgreed: bool)

  /** One message per field; "" means the field is fine. */
  datatype SignupErrors = SignupErrors(gender: string, birth: string, isFaceRecognitionAgreed: string)

  const GenderMessage: string := "성별을 선택해주세요."
  const BirthMessage: string := "YYYY-MM-DD 형식으로 입력해주세요."
  const ConsentMessage: string := "안면인식 동의가 필요합니다."

  /** The pattern `^\d{4}-\d{2}-\d{2}$`, with `#` for one ASCII digit (`\d`
      without the `u` flag) and every other character literal. */
  const BirthPattern: string := "####-##-##"

  /** `s` is the whole of one match of a `#`/literal pattern. */
  predicate MatchesPattern(s: string, pattern: string) {
    |s| == |pattern|
    && forall i :: 0 <= i < |s| ==> (if pattern[i] == '#' then IsAsciiDigit(s[i]) else s[i] == pattern[i])
  }

  function ValidateSignup(values: SignupValues): (errors: SignupErrors)
    ensures errors.gender == "" <==> values.gender == "MALE" || values.gender == "FEMALE"
    ensures errors.gender != "" ==> errors.gender == GenderMessage
    ensures errors.birth == "" <==> MatchesPattern(values.birth, BirthPattern)
    ensures errors.birth != "" ==> errors.birth == BirthMessage
    ensures errors.isFaceRecognitionAgreed == "" <==> values.isFaceRecognitionAgreed
    ensures errors.isFaceRecognitionAgreed != "" ==> errors.isFaceRecognitionAgreed == ConsentMessage
  {
    var gender := if values.gender in ["MALE", "FEMALE"] then "" else GenderMessage;
    var birth := if MatchesPattern(values.birth, BirthPattern) then "" else BirthMessage;
    var consent := if values.isFaceRecognitionAgreed then "" else ConsentMessage;
    SignupErrors(gender, birth, consent)
  }

  /** Each message depends on its own field only. */
  lemma FieldsIndependent(v: SignupValues, w: SignupValues)
    ensures v.gender == w.gender ==> ValidateSignup(v).gender == ValidateSignup(w).gender
    ensures v.birth == w.birth ==> ValidateSignup(v).birth == ValidateSignup(w).birth
    ensures v.isFaceRecognitionAgreed == w.isFaceRecognitionAgreed ==>
      ValidateSignup(v).isFaceRecognitionAgreed == ValidateSignup(w).isFaceRecognitionAgreed
  {
  }

  /** Only the shape is checked: a month 13 and a day 99 pass, a date
      without zero padding does not. */
  lemma ShapeOnly()
    ensures ValidateSignup(SignupValues("MALE", "2025-13-99", true)) == SignupErrors("", "", "")
    ensures ValidateSignup(SignupValues("FEMALE", "1990-5-21", true)).birth == BirthMessage
  {
    assert MatchesPattern("2025-13-99", BirthPattern);
    assert |"1990-5-21"| != |BirthPattern|;
  }

  /** `n` written with exactly `width` digits, zero-padded on the left. */
  function Padded(n: nat, width: nat): (r: string)
    ensures |r| == width
    ensures forall i :: 0 <= i < |r| ==> IsAsciiDigit(r[i])
  {
    if width == 0 then [] else Padded(n / 10, width - 1) + [DigitChar(n % 10)]
  }

  /** Every date written as year-month-day with four, two and two digits
      passes, so a correctly formatted date is never refused. */
  lemma FormattedDatePasses(year: nat, month: nat, day: nat)
    ensures ValidateSignup(SignupValues("MALE", Padded(year, 4) + "-" + Padded(month, 2) + "-" + Padded(day, 2), true))
            == SignupErrors("", "", "")
  {
    var s := Padded(year, 4) + "-" + Padded(month, 2) + "-" + Padded(day, 2);
    assert forall i :: 0 <= i < 4 ==> s[i] == Padded(year, 4)[i];
    assert forall i :: 5 <= i < 7 ==> s[i] == Padded(month, 2)[i - 5];
    assert forall i :: 8 <= i < 10 ==> s[i] == Padded(day, 2)[i - 8];
    assert MatchesPattern(s, BirthPattern);
  }
}
