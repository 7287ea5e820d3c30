/**
 * The rating a percentage earns: a table of ratings by threshold, sorted
 * from the highest threshold down, and a lookup that returns the first
 * rating whose threshold the percentage reaches.
 */
module Ratings {

  /** The keys of the program's colour table. */
  datatype FormattingColour =
    | Green | YellowGreen | Yellow | Orange | OrangeRed | Red | Black
    | BgGreen | White | BgBlack | BgYellowGreen | BgYellow | BgOrange
    | BgOrangeRed | BgRed | TsLogo | JsLogo

  /** A rating: the least whole percentage that earns it, and how it is shown (`caption` is the source's `label`). */
  datatype Rating = Rating(threshold: int, caption: string, fg: FormattingColour, bg: FormattingColour, emoji: string)

  const Excellent := Rating(90, "Excellent", Green, BgGreen, "\U{1F680}")
  const Great := Rating(75, "Great", YellowGreen, BgYellowGreen, "\U{1F389}")
  const Good := Rating(60, "Good", Yellow, BgYellow, "\U{1F44D}")
  const Fair := Rating(50, "Fair", Orange, BgOrange, "\U{1F90F}")
  const NeedsImprovement := Rating(30, "Needs Improvement", OrangeRed, BgOrangeRed, "\U{1F615}")
  const Poor := Rating(0, "Poor", Red, BgRed, "\U{1F61E}")

  /** The fallback when no threshold is reached. */
  const NoRating := Rating(-1, "No Rating", White, BgBlack, "\U{1F937}")

  /** The ratings in the order the program declares them. */
  const Declared: seq<Rating> := [Excellent, Great, Good, Fair, NeedsImprovement, Poor]

  /** `ratings`: the declared list sorted by threshold, highest first. */
  const RatingsTable: seq<Rating> := SortByThresholdDescending(Declared)

  /** Thresholds never increase from one rating to the next. */
  predicate Descending(table: seq<Rating>) {
    forall i, j :: 0 <= i < j < |table| ==> table[i].threshold >= table[j].threshold
  }

  /** Thresholds strictly decrease from one rating to the next. */
  predicate StrictlyDescending(table: seq<Rating>) {
    forall i, j :: 0 <= i < j < |table| ==> table[i].threshold > table[j].threshold
  }

  /**
   * `r` placed in the descending `sorted` before the first rating whose
   * threshold does not exceed its own.
   */
  function Insert(r: Rating, sorted: seq<Rating>): (result: seq<Rating>)
    ensures multiset(result) == multiset(sorted) + multiset{r}
    ensures |result| == |sorted| + 1
    ensures forall x :: x in result ==> x == r || x in sorted
  {
    if sorted == [] || sorted[0].threshold <= r.threshold then [r] + sorted
    else
      assert sorted == [sorted[0]] + sorted[1..];
      [sorted[0]] + Insert(r, sorted[1..])
  }

  /**
   * `slice().sort((a, b) => b.threshold - a.threshold)`: a stable sort by
   * threshold, highest first.
   */
  function SortByThresholdDescending(table: seq<Rating>): (sorted: seq<Rating>)
    ensures multiset(sorted) == multiset(table)
    ensures |sorted| == |table|
  {
    if table == [] then []
    else
      assert table == [table[0]] + table[1..];
      Insert(table[0], SortByThresholdDescending(table[1..]))
  }

  /** Inserting into a descending table keeps it descending. */
  lemma {:induction false} InsertKeepsDescending(r: Rating, sorted: seq<Rating>)
    requires Descending(sorted)
    ensures Descending(Insert(r, sorted))
    decreases sorted
  {
    if sorted != [] && sorted[0].threshold > r.threshold {
      var rest := Insert(r, sorted[1..]);
      InsertKeepsDescending(r, sorted[1..]);
      forall j | 0 <= j < |rest| ensures sorted[0].threshold >= rest[j].threshold {
        assert rest[j] in rest;
      }
      assert Insert(r, sorted) == [sorted[0]] + rest;
    }
  }

  /** The sort leaves the ratings in descending order of threshold. */
  lemma {:induction false} SortIsDescending(table: seq<Rating>)
    ensures Descending(SortByThresholdDescending(table))
    decreases table
  {
    if table != [] {
      SortIsDescending(table[1..]);
      InsertKeepsDescending(table[0], SortByThresholdDescending(table[1..]));
    }
  }

  /** A table already in strictly descending order comes out of the sort unchanged. */
  lemma {:induction false} SortKeepsSortedTable(table: seq<Rating>)
    requires StrictlyDescending(table)
    ensures SortByThresholdDescending(table) == table
    decreases table
  {
    if table != [] {
      SortKeepsSortedTable(table[1..]);
      assert table[1..] == [] || table[1..][0].threshold < table[0].threshold;
    }
  }

  /** The declared order is already strictly descending, so the sort keeps it. */
  lemma RatingsTableIsDeclaredOrder()
    ensures RatingsTable == Declared
    ensures StrictlyDescending(RatingsTable)
  {
    SortKeepsSortedTable(Declared);
  }

  /** The thresholds of the table, from the top: 90, 75, 60, 50, 30 and 0. */
  lemma RatingsTableThresholds()
    ensures |RatingsTable| == 6
    ensures RatingsTable[0].threshold == 90 && RatingsTable[1].threshold == 75
    ensures RatingsTable[2].threshold == 60 && RatingsTable[3].threshold == 50
    ensures RatingsTable[4].threshold == 30 && RatingsTable[5].threshold == 0
  {
    RatingsTableIsDeclaredOrder();
  }

  /** The first rating of `table` whose threshold `percentage` reaches, else `NoRating`. */
  function FindRating(table: seq<Rating>, percentage: int): (r: Rating)
    ensures r == NoRating || (r in table && percentage >= r.threshold * 100)
  {
    if table == [] then NoRating
    else if percentage >= table[0].threshold * 100 then table[0]
    else FindRating(table[1..], percentage)
  }

  /**
   * `getRating(percentage)`, the percentage given in hundredths: the first
   * rating of the sorted table whose threshold it reaches.
   */
  function GetRating(percentage: int): (r: Rating)
    ensures r == NoRating || (r in RatingsTable && percentage >= r.threshold * 100)
  {
    FindRating(RatingsTable, percentage)
  }

  /**
   * The lookup is a find-first: it returns the rating at the first index
   * whose threshold is reached, or `NoRating` when none is.
   */
  lemma {:induction false} FindRatingFromTable(table: seq<Rating>, percentage: int)
    ensures var r := FindRating(table, percentage);
            || (r == NoRating && forall k :: 0 <= k < |table| ==> percentage < table[k].threshold * 100)
            || exists i :: 0 <= i < |table| && r == table[i] && percentage >= table[i].threshold * 100
                 && forall k :: 0 <= k < i ==> percentage < table[k].threshold * 100
    decreases table
  {
    if table != [] && percentage < table[0].threshold * 100 {
      FindRatingFromTable(table[1..], percentage);
      var r := FindRating(table[1..], percentage);
      if r != NoRating || exists k :: 0 <= k < |table[1..]| && percentage >= table[1..][k].threshold * 100 {
        var i :| 0 <= i < |table[1..]| && r == table[1..][i] && percentage >= table[1..][i].threshold * 100
                 && forall k :: 0 <= k < i ==> percentage < table[1..][k].threshold * 100;
        assert r == table[i + 1];
        assert forall k :: 0 <= k < i + 1 ==> percentage < table[k].threshold * 100 by {
          forall k | 0 <= k < i + 1 ensures percentage < table[k].threshold * 100 {
            if k > 0 {
              assert table[k] == table[1..][k - 1];
            }
          }
        }
      }
    }
  }

  /**
   * Over a descending table the first rating reached is the one with the
   * greatest threshold the percentage reaches.
   */
  lemma {:induction false} FindRatingIsGreatestReached(table: seq<Rating>, percentage: int)
    requires Descending(table)
    ensures forall k :: 0 <= k < |table| && table[k].threshold * 100 <= percentage ==>
              table[k].threshold <= FindRating(table, percentage).threshold
    decreases table
  {
    if table != [] && percentage < table[0].threshold * 100 {
      FindRatingIsGreatestReached(table[1..], percentage);
      forall k | 0 <= k < |table| && table[k].threshold * 100 <= percentage
        ensures table[k].threshold <= FindRating(table, percentage).threshold
      {
        assert table[k] == table[1..][k - 1];
      }
    }
  }

  /** The rating at index `i` is returned when it is the first whose threshold is reached. */
  lemma {:induction false} FindRatingAt(table: seq<Rating>, percentage: int, i: nat)
    requires i < |table| && percentage >= table[i].threshold * 100
    requires forall k :: 0 <= k < i ==> percentage < table[k].threshold * 100
    ensures FindRating(table, percentage) == table[i]
    decreases i
  {
    if i > 0 {
      FindRatingAt(table[1..], percentage, i - 1);
    }
  }

  /** No threshold of the table is negative. */
  predicate ThresholdsNonNegative(table: seq<Rating>) {
    forall k :: 0 <= k < |table| ==> table[k].threshold >= 0
  }

  /** The sorted table is descending, its thresholds are not negative, and its last one is 0. */
  lemma RatingsTableShape()
    ensures Descending(RatingsTable) && ThresholdsNonNegative(RatingsTable)
    ensures |RatingsTable| == 6 && RatingsTable[5].threshold == 0
  {
    SortIsDescending(Declared);
    RatingsTableThresholds();
  }

  /**
   * Over a descending table with no negative threshold, a percentage gets
   * `NoRating` exactly when it is below the least threshold.
   */
  lemma {:induction false} FindRatingFallback(table: seq<Rating>, percentage: int)
    requires Descending(table) && ThresholdsNonNegative(table) && table != []
    ensures FindRating(table, percentage) == NoRating <==> percentage < table[|table| - 1].threshold * 100
    decreases table
  {
    var last := table[|table| - 1];
    if percentage >= table[0].threshold * 100 {
      assert table[0].threshold >= last.threshold;
    } else if |table| > 1 {
      FindRatingFallback(table[1..], percentage);
    }
  }

  /** Over a descending table, a higher percentage never finds a lower threshold. */
  lemma {:induction false} FindRatingMonotone(table: seq<Rating>, p: int, q: int)
    requires Descending(table) && ThresholdsNonNegative(table) && p <= q
    ensures FindRating(table, p).threshold <= FindRating(table, q).threshold
    decreases table
  {
    if table != [] {
      if q < table[0].threshold * 100 {
        FindRatingMonotone(table[1..], p, q);
      } else {
        var r := FindRating(table, p);
        if r != NoRating {
          var k :| 0 <= k < |table| && table[k] == r;
          assert table[0].threshold >= table[k].threshold;
        }
      }
    }
  }

  /**
   * `getRating` returns a rating whose threshold the percentage reaches (the
   * comparison is inclusive), and no rating of the table with a greater
   * threshold is reached.
   */
  lemma GetRatingIsGreatestReached(percentage: int)
    ensures GetRating(percentage) != NoRating ==> GetRating(percentage).threshold * 100 <= percentage
    ensures forall k :: 0 <= k < |RatingsTable| && RatingsTable[k].threshold * 100 <= percentage ==>
              RatingsTable[k].threshold <= GetRating(percentage).threshold
  {
    SortIsDescending(Declared);
    FindRatingIsGreatestReached(RatingsTable, percentage);
  }

  /** Every percentage from 0 up gets a real rating; only negative ones get `NoRating`. */
  lemma RatedExactlyWhenNonNegative(percentage: int)
    ensures GetRating(percentage) == NoRating <==> percentage < 0
  {
    RatingsTableShape();
    FindRatingFallback(RatingsTable, percentage);
  }

  /** A higher percentage never earns a lower rating. */
  lemma GetRatingMonotone(p: int, q: int)
    requires p <= q
    ensures GetRating(p).threshold <= GetRating(q).threshold
  {
    RatingsTableShape();
    FindRatingMonotone(RatingsTable, p, q);
  }

  /** The rating at index `i` of the declared list, for a percentage that reaches it and none before it. */
  lemma GetRatingAt(percentage: int, i: nat)
    requires i < |Declared| && percentage >= Declared[i].threshold * 100
    requires forall k :: 0 <= k < i ==> percentage < Declared[k].threshold * 100
    ensures GetRating(percentage) == Declared[i]
  {
    RatingsTableIsDeclaredOrder();
    FindRatingAt(Declared, percentage, i);
  }

  /** The sample percentages 95, 85, 65, 55, 35, 25 and 0, in hundredths, and their ratings, label and emoji included. */
  lemma GetRatingSamples(percentage: int)
    ensures percentage == 9500 ==> GetRating(percentage) == Excellent
    ensures percentage == 8500 ==> GetRating(percentage) == Great
    ensures percentage == 6500 ==> GetRating(percentage) == Good
    ensures percentage == 5500 ==> GetRating(percentage) == Fair
    ensures percentage == 3500 ==> GetRating(percentage) == NeedsImprovement
    ensures percentage == 2500 ==> GetRating(percentage) == Poor
    ensures percentage == 0 ==> GetRating(percentage) == Poor
  {
    if percentage == 9500 {
      GetRatingAt(percentage, 0);
    } else if percentage == 8500 {
      GetRatingAt(percentage, 1);
    } else if percentage == 6500 {
      GetRatingAt(percentage, 2);
    } else if percentage == 5500 {
      GetRatingAt(percentage, 3);
    } else if percentage == 3500 {
      GetRatingAt(percentage, 4);
    } else if percentage == 2500 || percentage == 0 {
      GetRatingAt(percentage, 5);
    }
  }
}
