/** The `Drinking` answer of the daily diary (weekly alcohol intake): each constant has
    an option number, as the app sends it, and a score impact. */
module Drinking {
  import Errors
  import opened Seqs

  datatype Drinking = OneOrLess | OneToThree | ThreeToSix | OverSix
  {
    /** The option number the app sends. */
    function Option(): int {
      match this
      case OneOrLess => 1
      case OneToThree => 2
      case ThreeToSix => 3
      case OverSix => 4
    }

    /** What the answer takes off the daily health score. */
    function ScoreImpact(): (impact: int)
      ensures -19 <= impact <= 0
    {
      match this
      case OneOrLess => 0
      case OneToThree => -4
      case ThreeToSix => -11
      case OverSix => -19
    }
  }

  /** `values()`, in declaration order. */
  const Values: seq<Drinking> := [OneOrLess, OneToThree, ThreeToSix, OverSix]

  /** `ofOption`: the first constant with the given option number, or
      `INVALID_DIARY_INPUT` when there is none. */
  function OfOption(option: int): (r: Errors.Result<Drinking>)
    ensures r.Ok? ==> r.value.Option() == option
    ensures r.Err? <==> !(1 <= option <= 4)
    ensures r.Err? ==> r.error == Errors.InvalidDiaryInput
  {
    match FindFirst(Values, (c: Drinking) => c.Option() == option)
    case Found(c) => Errors.Ok(c)
    case NotFound =>
      assert forall i :: 0 <= i < |Values| ==> Values[i].Option() == i + 1;
      Errors.Err(Errors.InvalidDiaryInput)
  }

  /** Every constant is found again from its own option number. */
  lemma OfOptionRoundTrip(c: Drinking)
    ensures OfOption(c.Option()) == Errors.Ok(c)
  {
  }

  /** Option numbers tell the constants apart. */
  lemma OptionInjective(a: Drinking, b: Drinking)
    requires a.Option() == b.Option()
    ensures a == b
  {
  }

  /** A higher option is a strictly worse answer. */
  lemma ImpactDecreasing(a: Drinking, b: Drinking)
    ensures a.Option() < b.Option() ==> b.ScoreImpact() < a.ScoreImpact()
  {
  }

  /** The score impact of option numbers, read back through `ofOption`: a
      higher option never takes off less. */
  lemma OfOptionMonotone(lower: int, higher: int)
    requires 1 <= lower <= higher <= 4
    ensures OfOption(higher).value.ScoreImpact() <= OfOption(lower).value.ScoreImpact()
  {
    ImpactDecreasing(OfOption(lower).value, OfOption(higher).value);
  }
}
