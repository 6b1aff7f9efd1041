/** `Math.round` applied to a quotient of integers, and the rounded mean of
    three category scores that both the server and the form compute. */
module Rounding {

  /** `Math.round(num / den)`: the integer nearest to num/den, with an exact
      half rounded up (towards +infinity), written without floating point. */
  function JsRound(num: int, den: int): (r: int)
    requires den > 0
    ensures 2 * r * den - den <= 2 * num < 2 * r * den + den
  {
    var q := (2 * num + den) / (2 * den);
    assert q * (2 * den) + (2 * num + den) % (2 * den) == 2 * num + den;
    q
  }

  /** The bracket in JsRound's contract pins the result down: there is only
      one integer within half a step of num/den (halves going up). */
  lemma {:induction false} JsRoundUnique(num: int, den: int, r: int)
    requires den > 0
    requires 2 * r * den - den <= 2 * num < 2 * r * den + den
    ensures r == JsRound(num, den)
  {
    var q := JsRound(num, den);
    assert (r - q) * den == r * den - q * den;
    StepBelowOne(r - q, den);
    StepBelowOne(q - r, den);
  }

  /** A multiple of a positive step that stays below one step is not positive. */
  lemma StepBelowOne(a: int, d: int)
    requires d > 0 && a * d < d
    ensures a <= 0
  {
  }

  /** `Math.round((a + b + c) / 3)`: the stored and submitted overall rating. */
  function RoundedMean(a: int, b: int, c: int): int {
    JsRound(a + b + c, 3)
  }

  /** For integer scores the mean never lies exactly half-way between two
      integers, so rounding it is the integer division (a + b + c + 1) / 3. */
  lemma RoundedMeanClosedForm(a: int, b: int, c: int)
    ensures RoundedMean(a, b, c) == (a + b + c + 1) / 3
  {
    var s := a + b + c;
    JsRoundUnique(s, 3, (s + 1) / 3);
  }

  /** The rounded mean lies between the smallest and the largest score, so
      scores in [1, 5] give a rating in [1, 5]. */
  lemma RoundedMeanBetween(a: int, b: int, c: int, lo: int, hi: int)
    requires lo <= a <= hi && lo <= b <= hi && lo <= c <= hi
    ensures lo <= RoundedMean(a, b, c) <= hi
  {
  }
}
