/** The `Sleep` answer of the daily diary (nightly hours of sleep): each constant has
    an option number, as the app sends it, and a score impact. */
module Sleep {
  import Errors
  import opened Seqs

  datatype Sleep = SevenToEight | UnderSix | OverNine
  {
    /** The option number the app sends. */
    function Option(): int {
      match this
      case SevenToEight => 1
      case UnderSix => 2
      case OverNine => 3
    }

    /** What the answer takes off the daily health score. */
    function ScoreImpact(): (impact: int)
      ensures -8 <= impact <= 0
    {
      match this
      case SevenToEight => 0
      case UnderSix => -8
      case OverNine => -8
    }
  }

  /** `values()`, in declaration order. */
  const Values: seq<Sleep> := [SevenToEight, UnderSix, OverNine]

  /** `ofOption`: the first constant with the given option number, or
      `INVALID_DIARY_INPUT` when there is none. */
  function OfOption(option: int): (r: Errors.Result<Sleep>)
    ensures r.Ok? ==> r.value.Option() == option
    ensures r.Err? <==> !(1 <= option <= 3)
    ensures r.Err? ==> r.error == Errors.InvalidDiaryInput
  {
    match FindFirst(Values, (c: Sleep) => c.Option() == option)
    case Found(c) => Errors.Ok(c)
    case NotFound =>
      assert forall i :: 0 <= i < |Values| ==> Values[i].Option() == i + 1;
      Errors.Err(Errors.InvalidDiaryInput)
  }

  /** Every constant is found again from its own option number. */
  lemma OfOptionRoundTrip(c: Sleep)
    ensures OfOption(c.Option()) == Errors.Ok(c)
  {
  }

  /** Option numbers tell the constants apart. */
  lemma OptionInjective(a: Sleep, b: Sleep)
    requires a.Option() == b.Option()
    ensures a == b
  {
  }

  /** A higher option is never a better answer. */
  lemma ImpactNonIncreasing(a: Sleep, b: Sleep)
    ensures a.Option() <= b.Option() ==> b.ScoreImpact() <= a.ScoreImpact()
  {
  }

  /** Too little and too much sleep cost the same. */
  lemma ShortAndLongSleepEqual()
    ensures UnderSix.Option() < OverNine.Option()
    ensures UnderSix.ScoreImpact() == OverNine.ScoreImpact() < SevenToEight.ScoreImpact()
  {
  }

  /** The score impact of option numbers, read back through `ofOption`: a
      higher option never takes off less. */
  lemma OfOptionMonotone(lower: int, higher: int)
    requires 1 <= lower <= higher <= 3
    ensures OfOption(higher).value.ScoreImpact() <= OfOption(lower).value.ScoreImpact()
  {
    ImpactNonIncreasing(OfOption(lower).value, OfOption(higher).value);
  }
}
