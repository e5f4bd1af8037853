/** Exact ratios for the derived numbers the page prints with `toFixed`:
    hours, averages and percentages. */
module Fractions {

  /** `num / den`; every ratio built here has `den > 0`. */
  datatype Rational = Rational(num: int, den: int)

  /** `minutes / 60`, the total in hours. */
  function Hours(minutes: int): (h: Rational)
    ensures h.den > 0 && h.num * 60 == minutes * h.den
  {
    Rational(minutes, 60)
  }

  /** A winrate: the literal `"0%"` when there are no plays, otherwise the
      percentage `100 * wins / plays`. */
  datatype Winrate = ZeroPercent | Percent(value: Rational)

  function WinrateOf(wins: nat, plays: nat): (w: Winrate)
    ensures plays == 0 <==> w == ZeroPercent
    ensures w.Percent? ==> w.value.den > 0 && w.value.num * plays == 100 * wins * w.value.den
    ensures w.Percent? && wins <= plays ==> 0 <= w.value.num <= 100 * w.value.den
  {
    if plays == 0 then ZeroPercent else Percent(Rational(100 * wins, plays))
  }
}
