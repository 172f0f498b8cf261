/** The `Exercise` answer of the daily diary (weekly minutes of exercise): each constant has
    an option number, as the app sends it, and a score impact. */
module Exercise {
  import Errors
  import opened Seqs

  datatype Exercise = Over150 | SixtyToOneFortyNine | UnderSixty
  {
    /** The option number the app sends. */
    function Option(): int {
      match this
      case Over150 => 1
      case SixtyToOneFortyNine => 2
      case UnderSixty => 3
    }

    /** What the answer takes off the daily health score. */
    function ScoreImpact(): (impact: int)
      ensures -9 <= impact <= 0
    {
      match this
      case Over150 => 0
      case SixtyToOneFortyNine => -4
      case UnderSixty => -9
    }
  }

  /** `values()`, in declaration order. */
  const Values: seq<Exercise> := [Over150, SixtyToOneFortyNine, UnderSixty]

  /** `ofOption`: the first constant with the given option number, or
      `INVALID_DIARY_INPUT` when there is none. */
  function OfOption(option: int): (r: Errors.Result<Exercise>)
    ensures r.Ok? ==> r.value.Option() == option
    ensures r.Err? <==> !(1 <= option <= 3)
    ensures r.Err? ==> r.error == Errors.InvalidDiaryInput
  {
    match FindFirst(Values, (c: Exercise) => c.Option() == option)
    case Found(c) => Errors.Ok(c)
    case NotFound =>
      assert forall i :: 0 <= i < |Values| ==> Values[i].Option() == i + 1;
      Errors.Err(Errors.InvalidDiaryInput)
  }

  /** Every constant is found again from its own option number. */
  lemma OfOptionRoundTrip(c: Exercise)
    ensures OfOption(c.Option()) == Errors.Ok(c)
  {
  }

  /** Option numbers tell the constants apart. */
  lemma OptionInjective(a: Exercise, b: Exercise)
    requires a.Option() == b.Option()
    ensures a == b
  {
  }

  /** A higher option is a strictly worse answer. */
  lemma ImpactDecreasing(a: Exercise, b: Exercise)
    ensures a.Option() < b.Option() ==> b.ScoreImpact() < a.ScoreImpact()
  {
  }

  /** The score impact of option numbers, read back through `ofOption`: a
      higher option never takes off less. */
  lemma OfOptionMonotone(lower: int, higher: int)
    requires 1 <= lower <= higher <= 3
    ensures OfOption(higher).value.ScoreImpact() <= OfOption(lower).value.ScoreImpact()
  {
    ImpactDecreasing(OfOption(lower).value, OfOption(higher).value);
  }
}
