/**
 * The `Counts` record a scan accumulates: per category (`filetypes`, keyed
 * `vue` and `plain` by the walker) the files and logical lines written in
 * JavaScript and in TypeScript, their sum, the derived percentages and the
 * score, and the same at the root. `incrementFileTypeCounts` adds one file
 * to it in place; `calculateScores` fills in the percentages and scores.
 *
 * Percentages and scores are exact integers in hundredths (see `Scores`).
 */
module Counts {
  import opened Wrappers
  import opened Strings
  import opened Constants
  import opened Scores
  import opened LineCounter
  import opened ScriptBlocks
  import VueMatcher

  /** `FileStatistics`: a number of files and their logical lines. */
  datatype FileStatistics = FileStatistics(files: nat, loc: nat)

  /** No files and no lines. */
  function NoFiles(): FileStatistics {
    FileStatistics(0, 0)
  }

  function Plus(a: FileStatistics, b: FileStatistics): FileStatistics {
    FileStatistics(a.files + b.files, a.loc + b.loc)
  }

  datatype LanguagePercentages = LanguagePercentages(ts: nat, js: nat)

  /** `LanguageDistributionPercentages`, in hundredths. */
  datatype LanguageDistributionPercentages =
    LanguageDistributionPercentages(files: LanguagePercentages, loc: LanguagePercentages)

  const NoPercentages := LanguageDistributionPercentages(LanguagePercentages(0, 0), LanguagePercentages(0, 0))

  /** The two languages a file is counted under, `'js' | 'ts'`. */
  datatype Language = Js | Ts

  /** One entry of `filetypes`, with the key it is stored under; `caption` is its `label`. */
  datatype Category = Category(
    key: string,
    caption: string,
    js: FileStatistics,
    ts: FileStatistics,
    percentages: LanguageDistributionPercentages,
    score: nat,
    total: FileStatistics)

  /** `category[language]`. */
  function StatsOf(category: Category, language: Language): FileStatistics {
    match language
    case Js => category.js
    case Ts => category.ts
  }

  /**
   * A `Counts` value. `filetypes` lists the entries of the object in its key
   * order, the order `Object.keys` and `Object.values` visit them.
   */
  datatype CountsValue = CountsValue(
    filetypes: seq<Category>,
    total: FileStatistics,
    percentages: LanguageDistributionPercentages,
    score: nat)

  const VueKey := "vue"
  const PlainKey := "plain"

  predicate KeysDistinct(filetypes: seq<Category>) {
    forall i, j :: 0 <= i < j < |filetypes| ==> filetypes[i].key != filetypes[j].key
  }

  predicate HasKey(filetypes: seq<Category>, key: string) {
    exists i :: 0 <= i < |filetypes| && filetypes[i].key == key
  }

  /**
   * The shape `incrementFileTypeCounts` relies on: an object whose keys
   * include `vue` and `plain` (without them the source fails on a missing
   * property).
   */
  predicate WellFormed(counts: CountsValue) {
    KeysDistinct(counts.filetypes) && HasKey(counts.filetypes, VueKey) && HasKey(counts.filetypes, PlainKey)
  }

  /** The category totals added up, last to first. */
  function SumTotals(filetypes: seq<Category>): FileStatistics
    decreases filetypes
  {
    if filetypes == [] then NoFiles() else Plus(filetypes[0].total, SumTotals(filetypes[1..]))
  }

  /** One language's statistics over all categories, last to first. */
  function SumLanguage(filetypes: seq<Category>, language: Language): FileStatistics
    decreases filetypes
  {
    if filetypes == [] then NoFiles() else Plus(StatsOf(filetypes[0], language), SumLanguage(filetypes[1..], language))
  }

  predicate CategoryConsistent(category: Category) {
    category.total == Plus(category.js, category.ts)
  }

  /** Every category's total is its js plus its ts, and the root total is the sum of the category totals. */
  predicate Consistent(counts: CountsValue) {
    && (forall i :: 0 <= i < |counts.filetypes| ==> CategoryConsistent(counts.filetypes[i]))
    && counts.total == SumTotals(counts.filetypes)
  }

  /** `counts.filetypes[key]`: the position of the entry stored under `key`, searching from `from`. */
  function KeyIndex(filetypes: seq<Category>, key: string, from: nat := 0): (i: nat)
    requires exists i :: from <= i < |filetypes| && filetypes[i].key == key
    ensures from <= i < |filetypes| && filetypes[i].key == key
    ensures forall j :: from <= j < i ==> filetypes[j].key != key
    decreases |filetypes| - from
  {
    if filetypes[from].key == key then from else KeyIndex(filetypes, key, from + 1)
  }

  // ---------------------------------------------------------------------
  // path.extname
  // ---------------------------------------------------------------------

  /** The last index before `j` holding `c`, if any. */
  function LastIndexBefore(s: string, c: char, j: nat): (k: Option<nat>)
    requires j <= |s|
    ensures k.Some? ==> k.value < j && s[k.value] == c
    ensures forall i :: (if k.Some? then k.value + 1 else 0) <= i < j ==> s[i] != c
    decreases j
  {
    if j == 0 then None else if s[j - 1] == c then Some(j - 1) else LastIndexBefore(s, c, j - 1)
  }

  /**
   * `path.extname`: the suffix from the last `.` of the final segment, or
   * nothing when that segment has no `.` after its first character.
   */
  function ExtName(path: string): (extension: string)
    ensures extension != [] ==> extension[0] == '.' && EndsWith(path, extension)
    ensures '/' !in extension && (extension != [] ==> '.' !in extension[1..])
  {
    var start := match LastIndexBefore(path, '/', |path|) case None => 0 case Some(k) => k + 1;
    match LastIndexBefore(path, '.', |path|)
    case Some(d) => if d > start then path[d..] else []
    case None => []
  }

  /** A final segment `name + extension`, where `extension` is one dot and no other: its extension. */
  lemma ExtNameOfSegment(directory: string, name: string, extension: string)
    requires name != [] && '/' !in name
    requires extension != [] && extension[0] == '.' && '.' !in extension[1..] && '/' !in extension
    ensures ExtName(directory + name + extension) == extension
  {
    var path := directory + name + extension;
    var d := |directory| + |name|;
    assert path[d] == '.';
    assert forall i :: d < i < |path| ==> path[i] == extension[i - d] && path[i] != '.';
    assert forall i :: |directory| <= i < |path| ==> path[i] != '/' by {
      forall i | |directory| <= i < |path| ensures path[i] != '/' {
        if i < d {
          assert path[i] == name[i - |directory|];
        } else {
          assert path[i] == extension[i - d];
        }
      }
    }
    assert path[d..] == extension;
  }

  /** A final segment with no `.` after its first character has no extension. */
  lemma ExtNameWithoutDot(directory: string, name: string)
    requires '/' !in name
    requires name == [] || '.' !in name[1..]
    requires directory == [] || directory[|directory| - 1] == '/'
    ensures ExtName(directory + name) == []
  {
    var path := directory + name;
    forall i | |directory| <= i < |path|
      ensures path[i] != '/'
      ensures i > |directory| ==> path[i] != '.'
    {
      assert path[i] == name[i - |directory|];
      if i > |directory| {
        assert name[i - |directory|] == name[1..][i - |directory| - 1];
      }
    }
    var start := match LastIndexBefore(path, '/', |path|) case None => 0 case Some(k) => k + 1;
    if directory != [] {
      assert path[|directory| - 1] == '/';
    }
    assert start == |directory|;
  }

  // ---------------------------------------------------------------------
  // incrementFileTypeCounts
  // ---------------------------------------------------------------------

  /** One more file with `loc` lines. */
  function OneMore(statistics: FileStatistics, loc: nat): FileStatistics {
    FileStatistics(statistics.files + 1, statistics.loc + loc)
  }

  /** The category with one more file of `language` holding `loc` lines. */
  function AddToCategory(category: Category, language: Language, loc: nat): Category {
    var category := match language
      case Js => category.(js := OneMore(category.js, loc))
      case Ts => category.(ts := OneMore(category.ts, loc));
    category.(total := OneMore(category.total, loc))
  }

  /** The counts with one more file of `language` holding `loc` lines, in the category stored under `key`. */
  function AddFile(counts: CountsValue, key: string, language: Language, loc: nat): CountsValue
    requires HasKey(counts.filetypes, key)
  {
    var i := KeyIndex(counts.filetypes, key);
    counts.(filetypes := counts.filetypes[i := AddToCategory(counts.filetypes[i], language, loc)],
            total := OneMore(counts.total, loc))
  }

  function LanguageOf(kind: VueMatcher.ScriptKind): Language
    requires kind != VueMatcher.NoScript
  {
    if kind == VueMatcher.Ts then Ts else Js
  }

  /** The logical lines of a component's script block; none without a block. */
  function ScriptLoc(content: string): nat {
    match ScriptBlock(content)
    case None => 0
    case Some(script) => LinesOfCode(script)
  }

  /** The counts after `incrementFileTypeCounts(filePath, counts)` has read `content` from `filePath`. */
  function Increment(counts: CountsValue, filePath: string, content: string): CountsValue
    requires WellFormed(counts)
  {
    var extension := ExtName(filePath);
    if extension !in AllFileExtensions then counts
    else if extension in VueExtensions then
      var kind := VueMatcher.GetVueSfcScriptType(content);
      if kind == VueMatcher.NoScript then counts
      else AddFile(counts, VueKey, LanguageOf(kind), ScriptLoc(content))
    else if extension in JsExtensions then AddFile(counts, PlainKey, Js, LinesOfCode(content))
    else if extension in TsExtensions then AddFile(counts, PlainKey, Ts, LinesOfCode(content))
    else counts
  }

  /**
   * Adding a file grows exactly three things by one file and `loc` lines:
   * the chosen language of the chosen category, that category's total and
   * the root total. Every other field, percentages and scores included,
   * keeps its value.
   */
  lemma AddFileGrowsThreeThings(counts: CountsValue, key: string, language: Language, loc: nat)
    requires KeysDistinct(counts.filetypes) && HasKey(counts.filetypes, key)
    ensures var after := AddFile(counts, key, language, loc);
      && |after.filetypes| == |counts.filetypes|
      && after.total == FileStatistics(counts.total.files + 1, counts.total.loc + loc)
      && after.percentages == counts.percentages && after.score == counts.score
      && forall i :: 0 <= i < |counts.filetypes| ==>
           var c, c' := counts.filetypes[i], after.filetypes[i];
           if c.key == key then
             && StatsOf(c', language) == FileStatistics(StatsOf(c, language).files + 1, StatsOf(c, language).loc + loc)
             && c'.total == FileStatistics(c.total.files + 1, c.total.loc + loc)
             && c' == c.(js := c'.js, ts := c'.ts, total := c'.total)
             && (language == Js ==> c'.ts == c.ts) && (language == Ts ==> c'.js == c.js)
           else c' == c
  {
  }

  /** Adding a file keeps every category total equal to js plus ts, and the root total equal to their sum. */
  lemma AddFileKeepsConsistent(counts: CountsValue, key: string, language: Language, loc: nat)
    requires Consistent(counts) && HasKey(counts.filetypes, key)
    ensures Consistent(AddFile(counts, key, language, loc))
  {
    var i := KeyIndex(counts.filetypes, key);
    var after := AddFile(counts, key, language, loc);
    SumTotalsUpdate(counts.filetypes, i, after.filetypes[i]);
  }

  /** Replacing one category changes the sum of the totals by the difference of the two totals. */
  lemma {:induction false} SumTotalsUpdate(filetypes: seq<Category>, i: nat, category: Category)
    requires i < |filetypes|
    ensures Plus(SumTotals(filetypes[i := category]), filetypes[i].total)
         == Plus(SumTotals(filetypes), category.total)
    decreases filetypes
  {
    if i > 0 {
      SumTotalsUpdate(filetypes[1..], i - 1, category);
      assert filetypes[i := category][1..] == filetypes[1..][i - 1 := category];
    } else {
      assert filetypes[i := category][1..] == filetypes[1..];
    }
  }

  /** Categories that hold no files add up to no files. */
  lemma {:induction false} SumOfEmptyTotals(filetypes: seq<Category>)
    requires forall i :: 0 <= i < |filetypes| ==> filetypes[i].total == NoFiles()
    ensures SumTotals(filetypes) == NoFiles()
    decreases filetypes
  {
    if filetypes != [] {
      SumOfEmptyTotals(filetypes[1..]);
      var first, rest := filetypes[0].total, SumTotals(filetypes[1..]);
      assert SumTotals(filetypes) == Plus(first, rest);
      assert first == NoFiles() && rest == NoFiles();
      NothingPlusNothing();
    }
  }

  lemma NothingPlusNothing()
    ensures Plus(NoFiles(), NoFiles()) == NoFiles()
  {
  }

  /** Incrementing keeps the counts consistent. */
  lemma IncrementKeepsConsistent(counts: CountsValue, filePath: string, content: string)
    requires WellFormed(counts) && Consistent(counts)
    ensures Consistent(Increment(counts, filePath, content))
  {
    var extension := ExtName(filePath);
    if extension in AllFileExtensions {
      if extension in VueExtensions {
        var kind := VueMatcher.GetVueSfcScriptType(content);
        if kind != VueMatcher.NoScript {
          AddFileKeepsConsistent(counts, VueKey, LanguageOf(kind), ScriptLoc(content));
        }
      } else if extension in JsExtensions {
        AddFileKeepsConsistent(counts, PlainKey, Js, LinesOfCode(content));
      } else if extension in TsExtensions {
        AddFileKeepsConsistent(counts, PlainKey, Ts, LinesOfCode(content));
      }
    }
  }

  /** Incrementing keeps the keys, so the counts can take the next file. */
  lemma IncrementKeepsShape(counts: CountsValue, filePath: string, content: string)
    requires WellFormed(counts)
    ensures WellFormed(Increment(counts, filePath, content))
  {
    var extension := ExtName(filePath);
    if extension in AllFileExtensions {
      if extension in VueExtensions {
        var kind := VueMatcher.GetVueSfcScriptType(content);
        if kind != VueMatcher.NoScript {
          AddFileKeepsShape(counts, VueKey, LanguageOf(kind), ScriptLoc(content));
        }
      } else if extension in JsExtensions {
        AddFileKeepsShape(counts, PlainKey, Js, LinesOfCode(content));
      } else if extension in TsExtensions {
        AddFileKeepsShape(counts, PlainKey, Ts, LinesOfCode(content));
      }
    }
  }

  /** Adding a file changes no key. */
  lemma AddFileKeepsShape(counts: CountsValue, key: string, language: Language, loc: nat)
    requires WellFormed(counts) && HasKey(counts.filetypes, key)
    ensures WellFormed(AddFile(counts, key, language, loc))
  {
    var after := AddFile(counts, key, language, loc);
    assert forall i :: 0 <= i < |after.filetypes| ==> after.filetypes[i].key == counts.filetypes[i].key;
    var v := KeyIndex(counts.filetypes, VueKey);
    var p := KeyIndex(counts.filetypes, PlainKey);
    assert after.filetypes[v].key == VueKey && after.filetypes[p].key == PlainKey;
  }

  /**
   * A file changes the counts exactly when its extension is supported and it
   * is not a component in which no script kind is recognised; otherwise the
   * counts come back as they were.
   */
  lemma IncrementChangesExactlyWhen(counts: CountsValue, filePath: string, content: string)
    requires WellFormed(counts)
    ensures var extension := ExtName(filePath);
      Increment(counts, filePath, content) == counts
      <==> extension !in AllFileExtensions
           || (extension in VueExtensions && VueMatcher.GetVueSfcScriptType(content) == VueMatcher.NoScript)
    ensures Increment(counts, filePath, content).total.files
         == counts.total.files + (if Increment(counts, filePath, content) == counts then 0 else 1)
  {
    SupportedExtensions(ExtName(filePath));
  }

  /**
   * A component recognised as js or ts without a closing `</script>` is one
   * more file of that language with no lines.
   */
  lemma ComponentWithoutCloseTag(counts: CountsValue, filePath: string, content: string)
    requires WellFormed(counts)
    requires ExtName(filePath) in VueExtensions
    requires VueMatcher.GetVueSfcScriptType(content) != VueMatcher.NoScript
    requires forall k :: 0 <= k <= |content| ==> !StartsAt(content, k, ScriptClose)
    ensures Increment(counts, filePath, content)
         == AddFile(counts, VueKey, LanguageOf(VueMatcher.GetVueSfcScriptType(content)), 0)
  {
    NoCloseTagNoBlock(content);
  }

  /** A `.js`-family file adds its logical lines to plain js; a `.ts`-family file to plain ts. */
  lemma PlainFileCounted(counts: CountsValue, filePath: string, content: string)
    requires WellFormed(counts)
    ensures ExtName(filePath) in JsExtensions ==>
      Increment(counts, filePath, content) == AddFile(counts, PlainKey, Js, LinesOfCode(content))
    ensures ExtName(filePath) in TsExtensions ==>
      Increment(counts, filePath, content) == AddFile(counts, PlainKey, Ts, LinesOfCode(content))
  {
    ExtensionListsDisjoint(ExtName(filePath));
  }

  // ---------------------------------------------------------------------
  // getTotalsCountForFiletype
  // ---------------------------------------------------------------------

  /** The reduce callback run over `filetypes` from the first entry, from `acc`. */
  function TotalsFrom(acc: FileStatistics, filetypes: seq<Category>, language: Language): FileStatistics
    decreases filetypes
  {
    if filetypes == [] then acc
    else TotalsFrom(Plus(acc, StatsOf(filetypes[0], language)), filetypes[1..], language)
  }

  /** `getTotalsCountForFiletype(counts, language)`: one language's files and lines summed over the categories. */
  function TotalsCountForFiletype(counts: CountsValue, language: Language): (totals: FileStatistics)
    ensures totals == SumLanguage(counts.filetypes, language)
  {
    TotalsFromIsSum(NoFiles(), counts.filetypes, language);
    TotalsFrom(NoFiles(), counts.filetypes, language)
  }

  /** The reduce adds the sum of one language's statistics to its starting value. */
  lemma {:induction false} TotalsFromIsSum(acc: FileStatistics, filetypes: seq<Category>, language: Language)
    ensures TotalsFrom(acc, filetypes, language) == Plus(acc, SumLanguage(filetypes, language))
    decreases filetypes
  {
    if filetypes != [] {
      TotalsFromIsSum(Plus(acc, StatsOf(filetypes[0], language)), filetypes[1..], language);
    }
  }

  /** When every category is consistent, its js and ts sums make up the sum of the totals. */
  lemma {:induction false} LanguagesMakeSumOfTotals(filetypes: seq<Category>)
    requires forall i :: 0 <= i < |filetypes| ==> CategoryConsistent(filetypes[i])
    ensures Plus(SumLanguage(filetypes, Js), SumLanguage(filetypes, Ts)) == SumTotals(filetypes)
    decreases filetypes
  {
    if filetypes != [] {
      var first, rest := filetypes[0], filetypes[1..];
      assert CategoryConsistent(first);
      assert forall i :: 0 <= i < |rest| ==> CategoryConsistent(rest[i]) by {
        forall i | 0 <= i < |rest| ensures CategoryConsistent(rest[i]) {
          assert rest[i] == filetypes[i + 1];
        }
      }
      LanguagesMakeSumOfTotals(rest);
    }
  }

  /** In consistent counts the js totals and the ts totals add up to the root total. */
  lemma LanguageTotalsMakeRootTotal(counts: CountsValue)
    requires Consistent(counts)
    ensures Plus(TotalsCountForFiletype(counts, Js), TotalsCountForFiletype(counts, Ts)) == counts.total
  {
    TotalsFromIsSum(NoFiles(), counts.filetypes, Js);
    TotalsFromIsSum(NoFiles(), counts.filetypes, Ts);
    LanguagesMakeSumOfTotals(counts.filetypes);
  }

  // ---------------------------------------------------------------------
  // calculateScores
  // ---------------------------------------------------------------------

  /** The percentages of ts and js in `total`. */
  function Shares(ts: nat, js: nat, total: nat): LanguagePercentages
    requires total > 0
  {
    LanguagePercentages(CalculatePercentage(ts, total), CalculatePercentage(js, total))
  }

  /**
   * One category after the `forEach` callback of `calculateScores`: with
   * files, new file percentages, new line percentages when it has lines
   * (otherwise the old ones stay) and the score from both.
   */
  function ScoreCategory(category: Category): Category {
    if category.total.files > 0 then
      var files := Shares(category.ts.files, category.js.files, category.total.files);
      var loc := if category.total.loc > 0 then Shares(category.ts.loc, category.js.loc, category.total.loc)
                 else category.percentages.loc;
      category.(percentages := LanguageDistributionPercentages(files, loc),
                score := CalculateScore(files.ts, loc.ts))
    else category
  }

  /** The root totals are positive, as the division at the root needs. */
  predicate HasRootTotals(counts: CountsValue) {
    counts.total.files > 0 && counts.total.loc > 0
  }

  /** The counts after `calculateScores(counts)`. */
  function ScoresCalculated(counts: CountsValue): CountsValue
    requires HasRootTotals(counts)
  {
    var filetypes := seq(|counts.filetypes|, i requires 0 <= i < |counts.filetypes| => ScoreCategory(counts.filetypes[i]));
    var ts := TotalsFrom(NoFiles(), filetypes, Ts);
    var js := TotalsFrom(NoFiles(), filetypes, Js);
    var percentages := LanguageDistributionPercentages(
      Shares(ts.files, js.files, counts.total.files),
      Shares(ts.loc, js.loc, counts.total.loc));
    CountsValue(filetypes, counts.total, percentages, CalculateScore(percentages.files.ts, percentages.loc.ts))
  }

  /** Scoring a category changes only its percentages and score. */
  lemma ScoreCategoryKeepsCounts(category: Category)
    ensures var c := ScoreCategory(category);
      c == category.(percentages := c.percentages, score := c.score)
    ensures category.total.files == 0 ==> ScoreCategory(category) == category
    ensures category.total.loc == 0 ==> ScoreCategory(category).percentages.loc == category.percentages.loc
  {
  }

  /** The reduce sees the same statistics before and after scoring. */
  lemma {:induction false} TotalsIgnoreScores(acc: FileStatistics, filetypes: seq<Category>, scored: seq<Category>, language: Language)
    requires |scored| == |filetypes|
    requires forall i :: 0 <= i < |filetypes| ==> StatsOf(scored[i], language) == StatsOf(filetypes[i], language)
    ensures TotalsFrom(acc, scored, language) == TotalsFrom(acc, filetypes, language)
    decreases filetypes
  {
    if filetypes != [] {
      TotalsIgnoreScores(Plus(acc, StatsOf(filetypes[0], language)), filetypes[1..], scored[1..], language);
    }
  }

  /**
   * `calculateScores` writes only percentages and scores: the keys, captions
   * and counts of every category and the root total keep their values; a
   * category without files is left as it was, and one without lines keeps
   * its line percentages.
   */
  lemma ScoresCalculatedKeepsCounts(counts: CountsValue)
    requires HasRootTotals(counts)
    ensures var after := ScoresCalculated(counts);
      && |after.filetypes| == |counts.filetypes| && after.total == counts.total
      && forall i :: 0 <= i < |counts.filetypes| ==>
           var c, c' := counts.filetypes[i], after.filetypes[i];
           && c' == c.(percentages := c'.percentages, score := c'.score)
           && (c.total.files == 0 ==> c' == c)
           && (c.total.loc == 0 ==> c'.percentages.loc == c.percentages.loc)
  {
  }

  /** The root percentages are the language totals over the root total, and the root score weighs them. */
  lemma RootPercentagesFromTotals(counts: CountsValue)
    requires HasRootTotals(counts)
    ensures var after := ScoresCalculated(counts);
      var ts, js := TotalsCountForFiletype(counts, Ts), TotalsCountForFiletype(counts, Js);
      && after.percentages.files == LanguagePercentages(CalculatePercentage(ts.files, counts.total.files), CalculatePercentage(js.files, counts.total.files))
      && after.percentages.loc == LanguagePercentages(CalculatePercentage(ts.loc, counts.total.loc), CalculatePercentage(js.loc, counts.total.loc))
      && after.score == CalculateScore(after.percentages.files.ts, after.percentages.loc.ts)
  {
    var after := ScoresCalculated(counts);
    TotalsIgnoreScores(NoFiles(), counts.filetypes, after.filetypes, Ts);
    TotalsIgnoreScores(NoFiles(), counts.filetypes, after.filetypes, Js);
  }

  /** Calculating the scores twice gives what calculating them once gives. */
  lemma ScoresCalculatedIdempotent(counts: CountsValue)
    requires HasRootTotals(counts)
    ensures HasRootTotals(ScoresCalculated(counts))
    ensures ScoresCalculated(ScoresCalculated(counts)) == ScoresCalculated(counts)
  {
    var once := ScoresCalculated(counts);
    var twice := ScoresCalculated(once);
    assert twice.filetypes == once.filetypes;
  }

  /**
   * In consistent counts every category with files gets js and ts
   * percentages of at most a whole that add up to a whole (or one hundredth
   * over it, from rounding both halves up), and so does the root.
   */
  lemma ScoresCalculatedAreShares(counts: CountsValue)
    requires HasRootTotals(counts) && Consistent(counts)
    ensures var after := ScoresCalculated(counts);
      && ComplementaryShares(after.percentages.files) && ComplementaryShares(after.percentages.loc)
      && forall i :: 0 <= i < |counts.filetypes| && counts.filetypes[i].total.files > 0 ==>
           && ComplementaryShares(after.filetypes[i].percentages.files)
           && (counts.filetypes[i].total.loc > 0 ==> ComplementaryShares(after.filetypes[i].percentages.loc))
  {
    var after := ScoresCalculated(counts);
    var ts, js := TotalsCountForFiletype(counts, Ts), TotalsCountForFiletype(counts, Js);
    RootPercentagesFromTotals(counts);
    LanguageTotalsMakeRootTotal(counts);
    SharesOfParts(ts.files, js.files, counts.total.files);
    SharesOfParts(ts.loc, js.loc, counts.total.loc);
    forall i | 0 <= i < |counts.filetypes| && counts.filetypes[i].total.files > 0
      ensures ComplementaryShares(after.filetypes[i].percentages.files)
      ensures counts.filetypes[i].total.loc > 0 ==> ComplementaryShares(after.filetypes[i].percentages.loc)
    {
      var c := counts.filetypes[i];
      assert CategoryConsistent(c);
      SharesOfParts(c.ts.files, c.js.files, c.total.files);
      if c.total.loc > 0 {
        SharesOfParts(c.ts.loc, c.js.loc, c.total.loc);
      }
    }
  }

  /** Two percentages of at most a whole that add up to a whole, or one hundredth over it. */
  predicate ComplementaryShares(p: LanguagePercentages) {
    p.ts <= Whole && p.js <= Whole && Whole <= p.ts + p.js <= Whole + 1
  }

  lemma SharesOfParts(ts: nat, js: nat, total: nat)
    requires total > 0 && ts + js == total
    ensures ComplementaryShares(Shares(ts, js, total))
  {
    PercentageBounds(ts, total);
    PercentageBounds(js, total);
    ComplementaryPercentages(ts, total);
  }

  // ---------------------------------------------------------------------
  // The mutable record
  // ---------------------------------------------------------------------

  /** A `Counts` object, updated in place. */
  class Counts {
    var filetypes: seq<Category>
    var total: FileStatistics
    var percentages: LanguageDistributionPercentages
    var score: nat

    function Value(): CountsValue
      reads this
    {
      CountsValue(filetypes, total, percentages, score)
    }

    /** `JSON.parse(JSON.stringify(value))`: a new object holding a copy of `value`. */
    constructor (value: CountsValue)
      ensures Value() == value
    {
      filetypes := value.filetypes;
      total := value.total;
      percentages := value.percentages;
      score := value.score;
    }

    /** The `++` and `+=` statements of one branch of `incrementFileTypeCounts`. */
    method AddFileTo(key: string, language: Language, loc: nat)
      requires HasKey(filetypes, key)
      modifies this
      ensures Value() == AddFile(old(Value()), key, language, loc)
    {
      var i := KeyIndex(filetypes, key);
      var category := filetypes[i];
      if language == Js {
        category := category.(js := FileStatistics(category.js.files + 1, category.js.loc + loc));
      } else {
        category := category.(ts := FileStatistics(category.ts.files + 1, category.ts.loc + loc));
      }
      category := category.(total := FileStatistics(category.total.files + 1, category.total.loc + loc));
      filetypes := filetypes[i := category];
      total := FileStatistics(total.files + 1, total.loc + loc);
    }

    /** `incrementFileTypeCounts(filePath, this)`, with `content` the text read from `filePath`. */
    method IncrementFileTypeCounts(filePath: string, content: string)
      requires WellFormed(Value())
      modifies this
      ensures Value() == Increment(old(Value()), filePath, content)
    {
      var extension := ExtName(filePath);
      if extension !in AllFileExtensions {
        return;
      }
      if extension in VueExtensions {
        var kind := VueMatcher.GetVueSfcScriptType(content);
        if kind != VueMatcher.NoScript {
          var loc := 0;
          match ScriptBlock(content) {
            case Some(script) => loc := CountLinesOfCode(script);
            case None =>
          }
          AddFileTo(VueKey, LanguageOf(kind), loc);
        }
      } else if extension in JsExtensions {
        var loc := CountLinesOfCode(content);
        AddFileTo(PlainKey, Js, loc);
      } else if extension in TsExtensions {
        var loc := CountLinesOfCode(content);
        AddFileTo(PlainKey, Ts, loc);
      }
    }

    /** `calculateScores(this)`: percentages and scores of every category, then of the root. */
    method CalculateScores()
      requires HasRootTotals(Value())
      modifies this
      ensures Value() == ScoresCalculated(old(Value()))
    {
      for i := 0 to |filetypes|
        invariant |filetypes| == |old(filetypes)|
        invariant forall j :: 0 <= j < i ==> filetypes[j] == ScoreCategory(old(filetypes)[j])
        invariant forall j :: i <= j < |filetypes| ==> filetypes[j] == old(filetypes)[j]
        invariant total == old(total)
      {
        var count := filetypes[i];
        if count.total.files > 0 {
          var files := LanguagePercentages(
            CalculatePercentage(count.ts.files, count.total.files),
            CalculatePercentage(count.js.files, count.total.files));
          var loc := count.percentages.loc;
          if count.total.loc > 0 {
            loc := LanguagePercentages(
              CalculatePercentage(count.ts.loc, count.total.loc),
              CalculatePercentage(count.js.loc, count.total.loc));
          }
          count := count.(percentages := LanguageDistributionPercentages(files, loc),
                          score := CalculateScore(files.ts, loc.ts));
          filetypes := filetypes[i := count];
        }
        assert filetypes[i] == ScoreCategory(old(filetypes)[i]);
      }
      ghost var scored := ScoresCalculated(old(Value()));
      assert filetypes == scored.filetypes;
      var totalTsCounts := TotalsCountForFiletype(Value(), Ts);
      var totalJsCounts := TotalsCountForFiletype(Value(), Js);
      percentages := LanguageDistributionPercentages(
        LanguagePercentages(
          CalculatePercentage(totalTsCounts.files, total.files),
          CalculatePercentage(totalJsCounts.files, total.files)),
        LanguagePercentages(
          CalculatePercentage(totalTsCounts.loc, total.loc),
          CalculatePercentage(totalJsCounts.loc, total.loc)));
      score := CalculateScore(percentages.files.ts, percentages.loc.ts);
    }
  }
}
