/** The `Diet` answer of the daily diary (kind of meals): each constant has
    an option number, as the app sends it, and a score impact. */
module Diet {
  import Errors
  import opened Seqs

  datatype Diet = Healthy | ProcessedOrHighSalt
  {
    /** The option number the app sends. */
    function Option(): int {
      match this
      case Healthy => 1
      case ProcessedOrHighSalt => 2
    }

    /** What the answer takes off the daily health score. */
    function ScoreImpact(): (impact: int)
      ensures -7 <= impact <= 0
    {
      match this
      case Healthy => 0
      case ProcessedOrHighSalt => -7
    }
  }

  /** `values()`, in declaration order. */
  const Values: seq<Diet> := [Healthy, ProcessedOrHighSalt]

  /** `ofOption`: the first constant with the given option number, or
      `INVALID_DIARY_INPUT` when there is none. */
  function OfOption(option: int): (r: Errors.Result<Diet>)
    ensures r.Ok? ==> r.value.Option() == option
    ensures r.Err? <==> !(1 <= option <= 2)
    ensures r.Err? ==> r.error == Errors.InvalidDiaryInput
  {
    match FindFirst(Values, (c: Diet) => c.Option() == option)
    case Found(c) => Errors.Ok(c)
    case NotFound =>
      assert forall i :: 0 <= i < |Values| ==> Values[i].Option() == i + 1;
      Errors.Err(Errors.InvalidDiaryInput)
  }

  /** Every constant is found again from its own option number. */
  lemma OfOptionRoundTrip(c: Diet)
    ensures OfOption(c.Option()) == Errors.Ok(c)
  {
  }

  /** Option numbers tell the constants apart. */
  lemma OptionInjective(a: Diet, b: Diet)
    requires a.Option() == b.Option()
    ensures a == b
  {
  }

  /** A higher option is a strictly worse answer. */
  lemma ImpactDecreasing(a: Diet, b: Diet)
    ensures a.Option() < b.Option() ==> b.ScoreImpact() < a.ScoreImpact()
  {
  }

  /** The score impact of option numbers, read back through `ofOption`: a
      higher option never takes off less. */
  lemma OfOptionMonotone(lower: int, higher: int)
    requires 1 <= lower <= higher <= 2
    ensures OfOption(higher).value.ScoreImpact() <= OfOption(lower).value.ScoreImpact()
  {
    ImpactDecreasing(OfOption(lower).value, OfOption(higher).value);
  }
}
