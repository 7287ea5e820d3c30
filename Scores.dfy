/**
 * Percentages and scores. The program computes them in floating point and
 * rounds them with `toFixed(2)`; here every percentage and every score is an
 * exact whole number of hundredths (`4035` stands for `40.35`), and the
 * rounding to two places is `RoundHalfUp`.
 */
module Scores {
  import opened Constants

  /** One hundred per cent, in hundredths. */
  const Whole: nat := 10000

  /**
   * `n / d` rounded to the nearest whole number, a tie going up: what
   * `toFixed` does to a value that is not negative.
   */
  function RoundHalfUp(n: nat, d: nat): (r: nat)
    requires d > 0
    ensures 2 * n < 2 * d * r + d <= 2 * n + 2 * d
  {
    var q := (2 * n + d) / (2 * d);
    DivBounds(2 * n + d, 2 * d, q);
    q
  }

  /** The bounds that define integer division. */
  lemma DivBounds(a: nat, b: nat, q: nat)
    requires b > 0 && q == a / b
    ensures b * q <= a < b * q + b
  {
  }

  /** Exactly one whole number lies within half of `n / d`, ties going up. */
  lemma RoundHalfUpUnique(n: nat, d: nat, r: nat)
    requires d > 0
    requires 2 * n < 2 * d * r + d <= 2 * n + 2 * d
    ensures r == RoundHalfUp(n, d)
  {
    var q := RoundHalfUp(n, d);
    MultiplyMonotone(2 * d, r + 1, q);
    MultiplyMonotone(2 * d, q + 1, r);
  }

  /** Multiplying by a factor that is not negative keeps the order. */
  lemma MultiplyMonotone(k: nat, a: nat, b: nat)
    ensures a <= b ==> k * a <= k * b
  {
  }

  /** `calculatePercentage(value, total)`: `value / total * 100` to two places. */
  function CalculatePercentage(value: nat, total: nat): (p: nat)
    requires total > 0
    ensures 2 * value * Whole < 2 * total * p + total <= 2 * value * Whole + 2 * total
  {
    RoundHalfUp(value * Whole, total)
  }

  /** `calculateScore(f, l)`: `0.3 f + 0.7 l` to two places. */
  function CalculateScore(filePercentage: nat, locPercentage: nat): (s: nat)
    ensures var weighted := FileWeighting * filePercentage + LocWeighting * locPercentage;
            2 * weighted < 2 * WeightScale * s + WeightScale <= 2 * weighted + 2 * WeightScale
  {
    RoundHalfUp(FileWeighting * filePercentage + LocWeighting * locPercentage, WeightScale)
  }

  /** A part of a total is at most one hundred per cent, and all of it is exactly that. */
  lemma PercentageBounds(value: nat, total: nat)
    requires total > 0
    ensures value <= total ==> CalculatePercentage(value, total) <= Whole
    ensures CalculatePercentage(total, total) == Whole
    ensures CalculatePercentage(0, total) == 0
  {
    var p := CalculatePercentage(value, total);
    if value <= total {
      MultiplyMonotone(2 * Whole, value, total);
      MultiplyMonotone(2 * total, Whole + 1, p);
    }
    RoundHalfUpUnique(total * Whole, total, Whole);
    RoundHalfUpUnique(0, total, 0);
  }

  /**
   * The percentages of a part and of the rest add up to one hundred per
   * cent, or to one hundredth more when both fall exactly on a half.
   */
  lemma ComplementaryPercentages(value: nat, total: nat)
    requires 0 < total && value <= total
    ensures var sum := CalculatePercentage(value, total) + CalculatePercentage(total - value, total);
            sum == Whole || sum == Whole + 1
  {
    var p := CalculatePercentage(value, total);
    var q := CalculatePercentage(total - value, total);
    assert (total - value) * Whole == total * Whole - value * Whole;
    var sum := p + q;
    MultiplyMonotone(2 * total, sum + 1, Whole);
    MultiplyMonotone(2 * total, Whole + 2, sum);
  }

  /** Equal percentages score exactly that percentage, because the weights add up to one. */
  lemma ScoreOfEqualPercentages(p: nat)
    ensures CalculateScore(p, p) == p
  {
    WeightsAddUpToOne();
    RoundHalfUpUnique(FileWeighting * p + LocWeighting * p, WeightScale, p);
  }

  /** The score lies between the two percentages it weighs. */
  lemma ScoreBetween(filePercentage: nat, locPercentage: nat)
    ensures var s := CalculateScore(filePercentage, locPercentage);
            (filePercentage <= locPercentage ==> filePercentage <= s <= locPercentage)
            && (locPercentage <= filePercentage ==> locPercentage <= s <= filePercentage)
  {
  }

  /** A higher percentage of either kind never lowers the score. */
  lemma ScoreMonotone(f: nat, l: nat, f': nat, l': nat)
    requires f <= f' && l <= l'
    ensures CalculateScore(f, l) <= CalculateScore(f', l')
  {
    var s := CalculateScore(f, l);
    var s' := CalculateScore(f', l');
    MultiplyMonotone(2 * WeightScale, s' + 1, s);
  }

  /** The table of the unit test of `calculatePercentage`, in hundredths. */
  lemma PercentageTests()
    ensures CalculatePercentage(10, 100) == 1000
    ensures CalculatePercentage(23, 57) == 4035
    ensures CalculatePercentage(33, 100) == 3300
    ensures CalculatePercentage(47, 94) == 5000
    ensures CalculatePercentage(50, 200) == 2500
    ensures CalculatePercentage(67, 89) == 7528
    ensures CalculatePercentage(75, 150) == 5000
    ensures CalculatePercentage(82, 164) == 5000
    ensures CalculatePercentage(90, 180) == 5000
    ensures CalculatePercentage(100, 250) == 4000
    ensures CalculatePercentage(33, 99) == 3333
    ensures CalculatePercentage(25, 75) == 3333
    ensures CalculatePercentage(50, 150) == 3333
  {
    RoundHalfUpUnique(10 * Whole, 100, 1000);
    RoundHalfUpUnique(23 * Whole, 57, 4035);
    RoundHalfUpUnique(33 * Whole, 100, 3300);
    RoundHalfUpUnique(47 * Whole, 94, 5000);
    RoundHalfUpUnique(50 * Whole, 200, 2500);
    RoundHalfUpUnique(67 * Whole, 89, 7528);
    RoundHalfUpUnique(75 * Whole, 150, 5000);
    RoundHalfUpUnique(82 * Whole, 164, 5000);
    RoundHalfUpUnique(90 * Whole, 180, 5000);
    RoundHalfUpUnique(100 * Whole, 250, 4000);
    RoundHalfUpUnique(33 * Whole, 99, 3333);
    RoundHalfUpUnique(25 * Whole, 75, 3333);
    RoundHalfUpUnique(50 * Whole, 150, 3333);
  }

  /** The values the unit test of `calculateScore` expects. */
  lemma ScoreTests()
    ensures CalculateScore(5000, 5000) == 5000
    ensures CalculateScore(2500, 7500) == 6000
    ensures CalculateScore(7500, 2500) == 4000
  {
    RoundHalfUpUnique(50000, WeightScale, 5000);
    RoundHalfUpUnique(60000, WeightScale, 6000);
    RoundHalfUpUnique(40000, WeightScale, 4000);
  }
}
