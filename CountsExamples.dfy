// The counts the unit tests of `calculateScores` and
// `getTotalsCountForFiletype` start from: 4 js and 6 ts plain files, 7 js
// and 9 ts components, with the percentages and scores already filled in.
// The categories are parameters pinned by `requires`, which keeps the
// solver from unfolding the recursive sums on literal sequences.
module CountsExamples {
  import opened Scores
  import opened Counts

  predicate IsPlainFixture(plain: Category) {
    plain == Category("plain", "Plain JS/TS", FileStatistics(4, 32), FileStatistics(6, 254),
                      LanguageDistributionPercentages(LanguagePercentages(6000, 4000), LanguagePercentages(8881, 1119)),
                      8017, FileStatistics(10, 286))
  }

  predicate IsVueFixture(vue: Category) {
    vue == Category("vue", "Vue SFC", FileStatistics(7, 78), FileStatistics(9, 123),
                    LanguageDistributionPercentages(LanguagePercentages(5625, 4375), LanguagePercentages(6119, 3881)),
                    5971, FileStatistics(16, 201))
  }

  function Fixture(plain: Category, vue: Category): CountsValue {
    CountsValue([plain, vue], FileStatistics(26, 487),
                LanguageDistributionPercentages(LanguagePercentages(5769, 4231), LanguagePercentages(7741, 2259)),
                7149)
  }

  /** The plain category's percentages and score are already those `calculateScores` computes. */
  lemma PlainIsScored(plain: Category)
    requires IsPlainFixture(plain)
    ensures ScoreCategory(plain) == plain
  {
    RoundHalfUpUnique(6 * Whole, 10, 6000);
    RoundHalfUpUnique(4 * Whole, 10, 4000);
    RoundHalfUpUnique(254 * Whole, 286, 8881);
    RoundHalfUpUnique(32 * Whole, 286, 1119);
    RoundHalfUpUnique(3 * 6000 + 7 * 8881, 10, 8017);
  }

  /** The same for the component category. */
  lemma VueIsScored(vue: Category)
    requires IsVueFixture(vue)
    ensures ScoreCategory(vue) == vue
  {
    RoundHalfUpUnique(9 * Whole, 16, 5625);
    RoundHalfUpUnique(7 * Whole, 16, 4375);
    RoundHalfUpUnique(123 * Whole, 201, 6119);
    RoundHalfUpUnique(78 * Whole, 201, 3881);
    RoundHalfUpUnique(3 * 5625 + 7 * 6119, 10, 5971);
  }

  /** `getTotalsCountForFiletype` on the fixture: 11 js files of 110 lines, 15 ts files of 377. */
  lemma FixtureTotals(plain: Category, vue: Category)
    requires IsPlainFixture(plain) && IsVueFixture(vue)
    ensures TotalsCountForFiletype(Fixture(plain, vue), Js) == FileStatistics(11, 110)
    ensures TotalsCountForFiletype(Fixture(plain, vue), Ts) == FileStatistics(15, 377)
  {
    var filetypes := [plain, vue];
    assert filetypes[1..] == [vue] && [vue][1..] == [];
  }

  /** `calculateScores` on the fixture gives back the fixture: every figure in it is already right. */
  lemma FixtureIsScored(plain: Category, vue: Category)
    requires IsPlainFixture(plain) && IsVueFixture(vue)
    ensures HasRootTotals(Fixture(plain, vue))
    ensures ScoresCalculated(Fixture(plain, vue)) == Fixture(plain, vue)
  {
    var counts := Fixture(plain, vue);
    var after := ScoresCalculated(counts);
    PlainIsScored(plain);
    VueIsScored(vue);
    ScoresCalculatedKeepsCounts(counts);
    assert after.filetypes == counts.filetypes by {
      assert after.filetypes[0] == ScoreCategory(plain);
      assert after.filetypes[1] == ScoreCategory(vue);
    }
    FixtureTotals(plain, vue);
    RootPercentagesFromTotals(counts);
    RootFigures();
    assert after.percentages == counts.percentages;
  }

  /** The root percentages and score of the fixture follow from its totals. */
  lemma RootFigures()
    ensures Shares(15, 11, 26) == LanguagePercentages(5769, 4231)
    ensures Shares(377, 110, 487) == LanguagePercentages(7741, 2259)
    ensures CalculateScore(5769, 7741) == 7149
  {
    RoundHalfUpUnique(15 * Whole, 26, 5769);
    RoundHalfUpUnique(11 * Whole, 26, 4231);
    RoundHalfUpUnique(377 * Whole, 487, 7741);
    RoundHalfUpUnique(110 * Whole, 487, 2259);
    RoundHalfUpUnique(3 * 5769 + 7 * 7741, 10, 7149);
  }
}
