/** The reading of a Pearson coefficient in `bivariate_numeric_numeric`
 *  (scripts/EDA_src/bivariate.py): a strength band from |r|, a direction
 *  from the sign of r and a significance verdict from the p-value, put
 *  together in the printed sentence. The coefficient and its p-value come
 *  from `stats.pearsonr`, which is not modelled; they are inputs here. */
module Bivariate {
  import opened Numbers

  const StrongAbove: real := 0.7
  const ModerateAbove: real := 0.4
  const WeakAbove: real := 0.1
  const SignificanceLevel: real := 0.05

  datatype Strength = Strong | Moderate | Weak | VeryWeakOrNo
  datatype Direction = Positive | Negative
  datatype Significance = Significant | NotSignificant

  datatype Interpretation = Interpretation(strength: Strength, direction: Direction, significance: Significance)

  /** The `if`/`elif` chain on `abs(pearson_corr)`: each band is bounded
   *  below strictly and above inclusively. */
  function StrengthOf(r: real): (s: Strength)
    ensures s == Strong <==> Abs(r) > StrongAbove
    ensures s == Moderate <==> (ModerateAbove < Abs(r) <= StrongAbove)
    ensures s == Weak <==> (WeakAbove < Abs(r) <= ModerateAbove)
    ensures s == VeryWeakOrNo <==> Abs(r) <= WeakAbove
  {
    if Abs(r) > StrongAbove then Strong
    else if Abs(r) > ModerateAbove then Moderate
    else if Abs(r) > WeakAbove then Weak
    else VeryWeakOrNo
  }

  /** `"positive" if pearson_corr > 0 else "negative"`. */
  function DirectionOf(r: real): (d: Direction)
    ensures d == Positive <==> r > 0.0
    ensures d == Negative <==> r <= 0.0
  {
    if r > 0.0 then Positive else Negative
  }

  /** `"statistically significant" if pearson_p < 0.05 else ...`. */
  function SignificanceOf(p: real): (s: Significance)
    ensures s == Significant <==> p < SignificanceLevel
    ensures s == NotSignificant <==> p >= SignificanceLevel
  {
    if p < SignificanceLevel then Significant else NotSignificant
  }

  function Interpret(r: real, p: real): Interpretation
  {
    Interpretation(StrengthOf(r), DirectionOf(r), SignificanceOf(p))
  }

  function StrengthLabel(s: Strength): string
  {
    match s
    case Strong => "strong"
    case Moderate => "moderate"
    case Weak => "weak"
    case VeryWeakOrNo => "very weak or no"
  }

  function DirectionLabel(d: Direction): string
  {
    match d
    case Positive => "positive"
    case Negative => "negative"
  }

  function SignificanceLabel(s: Significance): string
  {
    match s
    case Significant => "statistically significant"
    case NotSignificant => "not statistically significant"
  }

  /** The printed sentence; `rText` and `pText` are the coefficient and the
   *  p-value as formatted with three and four decimals. */
  function Sentence(i: Interpretation, rText: string, pText: string): string
  {
    "There is a " + StrengthLabel(i.strength) + " " + DirectionLabel(i.direction)
    + " correlation (" + rText + ") that is " + SignificanceLabel(i.significance)
    + " (p=" + pText + ")."
  }

  /** The bands in increasing order, for comparing strengths. */
  function Rank(s: Strength): (k: nat)
    ensures k <= 3
  {
    match s
    case VeryWeakOrNo => 0
    case Weak => 1
    case Moderate => 2
    case Strong => 3
  }

  /** A coefficient of larger magnitude is never in a weaker band. */
  lemma StrengthMonotone(r1: real, r2: real)
    requires Abs(r1) <= Abs(r2)
    ensures Rank(StrengthOf(r1)) <= Rank(StrengthOf(r2))
  {
  }

  /** The band depends on the magnitude only: r and -r have the same strength. */
  lemma StrengthSymmetric(r: real)
    ensures StrengthOf(-r) == StrengthOf(r)
    ensures r != 0.0 ==> DirectionOf(-r) != DirectionOf(r)
  {
    AbsNegate(r);
  }

  /** The band boundaries belong to the weaker band: |r| = 0.7 is moderate,
   *  0.4 weak and 0.1 very weak or no, in either sign; a perfect
   *  correlation is strong. */
  lemma StrengthBoundaries()
    ensures StrengthOf(0.7) == Moderate && StrengthOf(-0.7) == Moderate
    ensures StrengthOf(0.4) == Weak && StrengthOf(-0.4) == Weak
    ensures StrengthOf(0.1) == VeryWeakOrNo && StrengthOf(-0.1) == VeryWeakOrNo
    ensures StrengthOf(1.0) == Strong && StrengthOf(-1.0) == Strong
  {
  }

  /** No correlation at all is reported as negative, and a p-value of
   *  exactly 0.05 as not significant. */
  lemma EdgeVerdicts()
    ensures DirectionOf(0.0) == Negative
    ensures SignificanceOf(0.05) == NotSignificant
    ensures Interpret(0.0, 0.05) == Interpretation(VeryWeakOrNo, Negative, NotSignificant)
  {
  }

  /** Distinct bands, directions and verdicts print distinct words. */
}
