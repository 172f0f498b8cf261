/** The `Smoking` answer of the daily diary (daily cigarettes): each constant has
    an option number, as the app sends it, and a score impact. */
module Smoking {
  import Errors
  import opened Seqs

  datatype Smoking = NonSmoker | OneToFourteen | FifteenToTwentyFour | OverTwentyFour
  {
    /** The option number the app sends. */
    function Option(): int {
      match this
      case NonSmoker => 1
      case OneToFourteen => 2
      case FifteenToTwentyFour => 3
      case OverTwentyFour => 4
    }

    /** What the answer takes off the daily health score. */
    function ScoreImpact(): (impact: int)
      ensures -54 <= impact <= 0
    {
      match this
      case NonSmoker => 0
      case OneToFourteen => -22
      case FifteenToTwentyFour => -41
      case OverTwentyFour => -54
    }
  }

  /** `values()`, in declaration order. */
  const Values: seq<Smoking> := [NonSmoker, OneToFourteen, FifteenToTwentyFour, OverTwentyFour]

  /** `ofOption`: the first constant with the given option number, or
      `INVALID_DIARY_INPUT` when there is none. */
  function OfOption(option: int): (r: Errors.Result<Smoking>)
    ensures r.Ok? ==> r.value.Option() == option
    ensures r.Err? <==> !(1 <= option <= 4)
    ensures r.Err? ==> r.error == Errors.InvalidDiaryInput
  {
    match FindFirst(Values, (c: Smoking) => c.Option() == option)
    case Found(c) => Errors.Ok(c)
    case NotFound =>
      assert forall i :: 0 <= i < |Values| ==> Values[i].Option() == i + 1;
      Errors.Err(Errors.InvalidDiaryInput)
  }

  /** Every constant is found again from its own option number. */
  lemma OfOptionRoundTrip(c: Smoking)
    ensures OfOption(c.Option()) == Errors.Ok(c)
  {
  }

  /** Option numbers tell the constants apart. */
  lemma OptionInjective(a: Smoking, b: Smoking)
    requires a.Option() == b.Option()
    ensures a == b
  {
  }

  /** A higher option is a strictly worse answer. */
  lemma ImpactDecreasing(a: Smoking, b: Smoking)
    ensures a.Option() < b.Option() ==> b.ScoreImpact() < a.ScoreImpact()
  {
  }

  /** The score impact of option numbers, read back through `ofOption`: a
      higher option never takes off less. */
  lemma OfOptionMonotone(lower: int, higher: int)
    requires 1 <= lower <= higher <= 4
    ensures OfOption(higher).value.ScoreImpact() <= OfOption(lower).value.ScoreImpact()
  {
    ImpactDecreasing(OfOption(lower).value, OfOption(higher).value);
  }
}
