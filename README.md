# how-typed, modelled in Dafny

`how-typed` walks a JavaScript/TypeScript project and reports how much of it is
written in TypeScript. It counts files and logical lines of code per language
(`js`, `ts`) in two categories: plain source files (`plain`) and Vue
single-file components (`vue`). From those counts it derives per-category and
overall percentages, a weighted score and a rating.

This project models the counting and aggregation core and proves properties
of it:

- **Strings.dfy**: `trim`, `split` and `join` as the program uses them, with
  ECMAScript's whitespace set. A Dafny `char` is a Unicode scalar value where
  JavaScript strings hold UTF-16 code units; nothing modelled depends on the
  difference, because files are read as UTF-8.
- **LineCounter.dfy**: `countLinesOfCode`. It is a filter over the `\n`-separated lines
  that carries one `inBlockComment` flag. It is written as a method with a loop, proved
  against a left fold over the lines.
- **LineCounterExamples.dfy**: the unit-test inputs of the counter, for any one-line statement and
  any indentation.
- **Constants.dfy**: the extension tables, the default ignore patterns and
  the two weights (in tenths).
- **Scores.dfy**: `calculatePercentage` and `calculateScore` on exact whole
  numbers of hundredths (`4035` is `40.35`). `toFixed(2)` becomes a
  round-half-up division.
- **VueMatcher.dfy**: `getVueSfcScriptType`. The two regular expressions are hand-written
  scans, each proved equal to a declarative reading of its pattern.
- **VueMatcherExamples.dfy**: the matcher's test table.
- **ScriptBlocks.dfy**: the `<script.*?>([\s\S]*?)<\/script>` match that
  extracts a component's script, as a leftmost-match scan.
- **Counts.dfy**: the `Counts` record.
  - `incrementFileTypeCounts` is the class method `Counts.IncrementFileTypeCounts`. It updates
    the fields in place and is specified by the function `Increment`.
  - `getTotalsCountForFiletype` is a left fold.
  - `calculateScores` is a method whose loop rewrites each category. It is specified by `ScoresCalculated`.
- **CountsExamples.dfy**: the fixture of the `calculateScores` and
  `getTotalsCountForFiletype` tests.
- **IgnorePatterns.dfy**: `getIgnorePatterns` is a method that pushes the kept
  `.gitignore` lines after the defaults. The `.gitignore` text is an
  `Option<string>`, `None` when the file cannot be read. `isFileIgnored`
  takes the glob matcher as a parameter.
- **Ratings.dfy**: the sorted `ratings` table and `getRating`.
- **Walker.dfy**: `summariseDirectoryFilesByType` over an in-memory
  directory tree.
  - It is a method that copies the incoming counts, loops over the entries, recurses into
    subdirectories and increments the copy in place.
  - It is specified by the fold `WalkEntries`, which is proved equal to
    `incrementFileTypeCounts` folded over the files reached, in visit order.

`filetypes` is a sequence of categories in the object's key order, each
carrying the key it is stored under. A `Counts` value is `WellFormed` when its keys
are distinct and include `vue` and `plain`, which `incrementFileTypeCounts`
relies on. It is `Consistent` when each category's total is its js plus its ts,
and the root total is the sum of the category totals.

## Model

| member | source | states |
|---|---|---|
| Constants.SupportedExtensions | src/constants.ts:1-11 | an extension is in `allFileExtensions` exactly when it is in the js, ts or vue list |
| Constants.ExtensionListsDisjoint | src/constants.ts:1-5 | no extension is in two of the js, ts and vue lists |
| Constants.WeightsAddUpToOne | src/constants.ts:49-50 | the file and loc weights add up to one whole |
| Strings.Trim | src/lib/utils.ts:74 | the trim is no longer than the text, is empty exactly when the text is all whitespace, and has no whitespace at either end; `TrimRemovesOuterWhitespace` adds that it is the text without its outer whitespace |
| Strings.Split | src/lib/utils.ts:73 | splitting gives at least one piece and no piece holds the separator |
| Strings.JoinSplit | src/lib/utils.ts:73 | joining the pieces of a split with the separator gives the text back |
| Strings.SplitJoin | src/lib/utils.ts:73 | splitting the join of separator-free pieces gives the pieces back |
| Strings.SplitTrailingSeparator | src/lib/utils.ts:162 | a separator at the end adds one empty piece and changes no other piece |
| Strings.SplitPiecesFromText | src/lib/utils.ts:162 | every character of every piece occurs in the text |
| Strings.TrimRemovesOuterWhitespace | src/lib/utils.ts:74 | the trim is a slice of the text with only whitespace before it and only whitespace after it |
| Strings.TrimBothEnds | src/lib/utils.ts:74 | whitespace on both sides of a text with non-whitespace ends is trimmed away, leaving the text |
| Strings.TrimPadded | src/lib/utils.ts:74 | whitespace in front of a text with non-whitespace ends is trimmed away, leaving the text |
| Strings.TrimUnpadded | src/lib/utils.ts:74 | a text with non-whitespace ends is its own trim |
| LineCounter.Judge | src/lib/utils.ts:165-179 | a trimmed line is counted exactly when no block comment is open and it is neither blank nor starts with `//` or `/*` nor ends with `*/`; the flag after it is set or cleared as the comment markers say |
| LineCounter.CountLinesOfCode | src/lib/utils.ts:161-183 | the loop's count equals `LinesOfCode`, the fold of the filter over the lines |
| LineCounter.ScanAppend | src/lib/utils.ts:164-180 | scanning two runs of lines one after the other equals scanning their concatenation |
| LineCounter.CountedExactlyWhen | src/lib/utils.ts:164-179 | line i is counted exactly when the lines before it leave no block comment open and its trimmed text is code |
| LineCounter.KeptLinesComeFromInput | src/lib/utils.ts:164-182 | the kept lines are a sub-multiset of the input lines, so the count never exceeds the number of lines |
| LineCounter.KeptLinesAreCode | src/lib/utils.ts:165-179 | every kept line is non-blank once trimmed, does not start with `//` and does not end with `*/` |
| LineCounter.UnclosedCommentSwallowsRest | src/lib/utils.ts:166-175 | an open block comment that no later line closes keeps every remaining line out of the count |
| LineCounter.AllCodeLinesCounted | src/lib/utils.ts:164-182 | lines that are all code are all kept and the flag stays clear |
| LineCounter.BlankLinesCountNothing | src/lib/utils.ts:176-178 | whitespace-only lines are never kept |
| LineCounter.WhitespaceHasNoCode | src/lib/utils.ts:161-183 | empty, whitespace-only and newline-only text has no lines of code |
| LineCounter.TrailingNewlineAddsNothing | src/lib/utils.ts:162-178 | a newline at the end of the text does not change the count |
| LineCounterExamples.FiveStatementsCountFive | src/lib/__tests__/utils.spec.ts:753-761 | a statement followed by four indented statements counts 5 |
| LineCounterExamples.BlankInputsCountNothing | src/lib/__tests__/utils.spec.ts:763-776 | `''`, four spaces and five newlines each count 0 |
| LineCounterExamples.SingleStatementCountsOne | src/lib/__tests__/utils.spec.ts:778-786 | one statement counts 1, with or without a trailing newline |
| LineCounterExamples.MixedTextCountsSix | src/lib/__tests__/utils.spec.ts:788-814 | the text mixing line comments, inline, doc and multi-line block comments, blank lines and six statements counts 6 |
| LineCounterExamples.CountLinesOfCodeTests | src/lib/__tests__/utils.spec.ts:752-815 | the five-statement and mixed tests, with the test's own statement and indentation, count 5 and 6 |
| Scores.RoundHalfUp | src/lib/utils.ts:15 | the result is the whole number within half of n/d, a tie going up |
| Scores.RoundHalfUpUnique | src/lib/utils.ts:15 | that whole number is unique |
| Scores.CalculatePercentage | src/lib/utils.ts:14-16 | the percentage in hundredths is value/total·100 rounded to two places |
| Scores.CalculateScore | src/lib/utils.ts:185-192 | the score is 0.3·files + 0.7·loc rounded to two places |
| Scores.PercentageBounds | src/lib/utils.ts:14-16 | a part of a total is at most 100%, all of it exactly 100% and none of it 0% |
| Scores.ComplementaryPercentages | src/lib/utils.ts:24-25 | the percentages of a part and of the rest add up to 100% or, when both round up a half, 100.01% |
| Scores.ScoreOfEqualPercentages | src/lib/utils.ts:185-192 | equal file and loc percentages score exactly that percentage, because the weights add up to one |
| Scores.ScoreBetween | src/lib/utils.ts:185-192 | the score lies between the two percentages it weighs |
| Scores.ScoreMonotone | src/lib/utils.ts:185-192 | raising either percentage never lowers the score |
| Scores.PercentageTests | src/lib/__tests__/utils.spec.ts:88-107 | all thirteen rows of the table: 10/100 → 10, 23/57 → 40.35, 33/100 → 33, 47/94 → 50, 50/200 → 25, 67/89 → 75.28, 75/150 → 50, 82/164 → 50, 90/180 → 50, 100/250 → 40, 33/99 → 33.33, 25/75 → 33.33, 50/150 → 33.33 |
| Scores.ScoreTests | src/lib/__tests__/utils.spec.ts:818-829 | scores (50,50), (25,75) and (75,25) give 50, 60 and 40 |
| Ratings.Insert | src/lib/ratings.ts:76-77 | inserting adds the rating to the multiset of ratings, and the result has one more element |
| Ratings.SortByThresholdDescending | src/lib/ratings.ts:67-77 | the sorted table is a permutation of the declared one |
| Ratings.InsertKeepsDescending | src/lib/ratings.ts:76-77 | inserting into a descending table keeps it descending |
| Ratings.SortIsDescending | src/lib/ratings.ts:67-77 | the sort leaves thresholds in descending order |
| Ratings.SortKeepsSortedTable | src/lib/ratings.ts:67-77 | a strictly descending table comes out of the sort unchanged |
| Ratings.RatingsTableIsDeclaredOrder | src/lib/ratings.ts:67-77 | `ratings` is the declared list, and it is strictly descending |
| Ratings.RatingsTableThresholds | src/lib/ratings.ts:11-77 | the thresholds from the top are 90, 75, 60, 50, 30 and 0 |
| Ratings.RatingsTableShape | src/lib/ratings.ts:11-77 | the table is descending, no threshold is negative and the last is 0 |
| Ratings.FindRating | src/lib/ratings.ts:84-92 | the result is `noRating` or a rating of the table whose threshold the percentage reaches |
| Ratings.GetRating | src/lib/ratings.ts:84-92 | the result is `noRating` or a rating of `ratings` whose threshold the percentage reaches |
| Ratings.FindRatingFromTable | src/lib/ratings.ts:85-91 | the lookup returns the rating at the first index whose threshold is reached, or `noRating` when none is |
| Ratings.FindRatingIsGreatestReached | src/lib/ratings.ts:85-89 | over a descending table no reached threshold exceeds the returned one |
| Ratings.FindRatingAt | src/lib/ratings.ts:85-89 | the rating at index i is returned when it is the first reached |
| Ratings.FindRatingFallback | src/lib/ratings.ts:85-91 | over a descending non-negative table the result is `noRating` exactly when the percentage is below the last threshold |
| Ratings.FindRatingMonotone | src/lib/ratings.ts:85-91 | over a descending non-negative table a higher percentage never finds a lower threshold |
| Ratings.GetRatingIsGreatestReached | src/lib/ratings.ts:84-89 | the comparison is inclusive, and the returned threshold is the greatest one reached |
| Ratings.RatedExactlyWhenNonNegative | src/lib/ratings.ts:51-92 | `getRating` returns `noRating` exactly for negative percentages |
| Ratings.GetRatingMonotone | src/lib/ratings.ts:84-92 | p ≤ q implies getRating(p).threshold ≤ getRating(q).threshold |
| Ratings.GetRatingAt | src/lib/ratings.ts:84-92 | the declared rating at index i is returned for a percentage that reaches it and no earlier one |
| Ratings.GetRatingSamples | src/lib/__tests__/ratings.spec.ts:5-23 | 95, 85, 65, 55, 35, 25 get the whole ratings Excellent 🚀, Great 🎉, Good 👍, Fair 🤏, Needs Improvement 😕 and Poor 😞, label and emoji included; 0 gets Poor |
| VueMatcher.GetVueSfcScriptType | src/matchers/vue.ts:4-15 | 'ts' exactly when tsPattern matches; 'js' exactly when it does not and jsPattern does; null exactly when neither matches |
| VueMatcher.SearchTs | src/matchers/vue.ts:5-8 | the scan finds a match exactly when tsPattern matches at some index |
| VueMatcher.SearchJs | src/matchers/vue.ts:6-10 | the scan finds a match exactly when jsPattern matches at some index |
| VueMatcher.LangTsBefore | src/matchers/vue.ts:6 | the scan finds `lang="ts"` after a non-word character exactly when one lies in the range |
| VueMatcher.TsScanSound | src/matchers/vue.ts:5 | a match the tsPattern scan finds is a match of the pattern |
| VueMatcher.TsScanComplete | src/matchers/vue.ts:5 | every match of tsPattern is found by the scan |
| VueMatcher.TsScanAgrees | src/matchers/vue.ts:5 | the tsPattern scan at an index agrees with the pattern there |
| VueMatcher.JsScanAgrees | src/matchers/vue.ts:6 | the jsPattern scan at an index agrees with the pattern there |
| VueMatcher.TsTagGivesTs | src/matchers/vue.ts:5-9 | `<script`, whitespace and `lang="ts"` anywhere give 'ts', whatever else the text holds |
| VueMatcher.SetupTsTagGivesTs | src/matchers/vue.ts:5-9 | the same with `setup` and whitespace before `lang="ts"` |
| VueMatcher.NoOpenTagGivesNull | src/matchers/vue.ts:5-14 | a text without `<script` gives null |
| VueMatcher.OnlyOpenTagDecides | src/matchers/vue.ts:5-12 | when the text has a single `<script…>` tag, that tag alone decides the kind |
| VueMatcher.JsTagAtOpenTag | src/matchers/vue.ts:6 | jsPattern matches an opening tag exactly when its attributes hold no `lang="ts"` at a word boundary |
| VueMatcher.NotTsWithoutGap | src/matchers/vue.ts:5 | tsPattern fails at a `<script` not followed by whitespace |
| VueMatcher.NotTsAfterGap | src/matchers/vue.ts:5 | tsPattern fails when the whitespace is followed by neither `lang="ts"` nor `setup` |
| VueMatcher.NotTsAfterSetup | src/matchers/vue.ts:5 | tsPattern fails when `setup` is not followed by whitespace and `lang="ts"` |
| VueMatcherExamples.JsTagsGiveJs | src/matchers/__tests__/vue.spec.ts:5-8 | bare, `setup`, `lang="js"` and `setup lang="js"` script tags give 'js' |
| VueMatcherExamples.TsTagsGiveTs | src/matchers/__tests__/vue.spec.ts:9-10 | `lang="ts"` and `setup lang="ts"` script tags give 'ts' |
| VueMatcherExamples.NoScriptBlockGivesNull | src/matchers/__tests__/vue.spec.ts:11 | a component with no script block gives null |
| VueMatcherExamples.OtherAttributeBeforeLangTsGivesNull | src/matchers/vue.ts:5-6 | a lone `<script generic="T" lang="ts">` matches neither pattern and gives null |
| VueMatcherExamples.LangTsVetoesJs | src/matchers/vue.ts:6 | the `lang="ts"` in that tag vetoes jsPattern |
| ScriptBlocks.SearchBlockFinds | src/lib/utils.ts:121-123 | the search from p finds a block exactly when the pattern matches at some index from p on |
| ScriptBlocks.ScriptBlock | src/lib/utils.ts:121-126 | a script block is found exactly when the pattern matches somewhere in the content |
| ScriptBlocks.BlockAtIndexMeaning | src/lib/utils.ts:122 | trying the pattern at one index agrees with its declarative reading, and the capture is the text between the tag's `>` and the first `</script>` after it |
| ScriptBlocks.OpeningIsUnique | src/lib/utils.ts:122 | the `>` that ends the opening tag is the first one after `<script` |
| ScriptBlocks.ScriptBlockIsLeftmostMatch | src/lib/utils.ts:121-126 | the captured text is taken at the leftmost index where the pattern matches |
| ScriptBlocks.NoCloseTagNoBlock | src/lib/utils.ts:121-125 | without a `</script>` there is no block |
| ScriptBlocks.FirstOpeningDecides | src/lib/utils.ts:121-123 | with no `<script` before p, a match at p is the one returned |
| ScriptBlocks.SingleBlock | src/lib/utils.ts:121-126 | a lone `<script…>` tag followed by a body and `</script>` captures exactly the body |
| Counts.KeyIndex | src/lib/utils.ts:129-130 | the index holds the key, and no earlier index does |
| Counts.ExtName | src/lib/utils.ts:109 | the extension is empty, or starts with `.`, ends the path, and holds no `/` and no other `.` |
| Counts.ExtNameOfSegment | src/lib/utils.ts:109 | a final segment `name.ext`, where the extension's dot is not the segment's first character, has extension `.ext` |
| Counts.ExtNameWithoutDot | src/lib/utils.ts:109 | a final segment with no dot after its first character has no extension |
| Counts.AddFileGrowsThreeThings | src/lib/utils.ts:129-155 | exactly three things grow by one file and the file's loc: the chosen language of the chosen category, that category's total and the root total; nothing else changes, percentages and scores included |
| Counts.AddFileKeepsConsistent | src/lib/utils.ts:129-155 | adding a file keeps category totals equal to js + ts and the root total equal to their sum |
| Counts.AddFileKeepsShape | src/lib/utils.ts:129-155 | adding a file changes no key |
| Counts.IncrementKeepsConsistent | src/lib/utils.ts:105-159 | `incrementFileTypeCounts` keeps the counts consistent |
| Counts.IncrementKeepsShape | src/lib/utils.ts:105-159 | `incrementFileTypeCounts` keeps the keys, so the counts can take the next file |
| Counts.IncrementChangesExactlyWhen | src/lib/utils.ts:109-159 | the counts change exactly when the extension is supported and the file is not a component without a recognised script, and the root file count grows by one exactly then |
| Counts.ComponentWithoutCloseTag | src/lib/utils.ts:117-139 | a js or ts component with no `</script>` adds one file with 0 loc |
| Counts.PlainFileCounted | src/lib/utils.ts:140-155 | a js-family file adds its lines to plain js, a ts-family file to plain ts |
| Counts.TotalsCountForFiletype | src/lib/utils.ts:89-103 | the reduce from zero gives one language's files and lines summed over all categories (`TotalsFromIsSum`); in consistent counts the js and ts results add up to the root total (`LanguageTotalsMakeRootTotal`) |
| Counts.TotalsFromIsSum | src/lib/utils.ts:89-103 | the reduce adds one language's sum over the categories to its start value |
| Counts.LanguagesMakeSumOfTotals | src/lib/utils.ts:89-103 | in consistent categories the js sum plus the ts sum is the sum of the totals |
| Counts.LanguageTotalsMakeRootTotal | src/lib/utils.ts:89-103 | in consistent counts `getTotalsCountForFiletype(js)` + `getTotalsCountForFiletype(ts)` is the root total |
| Counts.ScoreCategoryKeepsCounts | src/lib/utils.ts:19-40 | scoring a category changes only its percentages and score; with no files it changes nothing; with no lines its loc percentages stay |
| Counts.TotalsIgnoreScores | src/lib/utils.ts:42-43 | the language totals read after scoring equal those before |
| Counts.ScoresCalculatedKeepsCounts | src/lib/utils.ts:18-62 | `calculateScores` keeps every key, caption, count and total; only percentages and scores change; categories with no files keep everything |
| Counts.RootPercentagesFromTotals | src/lib/utils.ts:42-54 | the root percentages are the language totals' shares of the root total |
| Counts.ScoresCalculatedIdempotent | src/lib/utils.ts:18-62 | scoring twice gives the same counts as scoring once |
| Counts.ScoresCalculatedAreShares | src/lib/utils.ts:18-62 | in consistent counts the root and every category with files get js and ts percentages of at most 100% that add up to 100% or 100.01% (line percentages when the category has lines) |
| Counts.SharesOfParts | src/lib/utils.ts:23-32 | the ts and js shares of a total they make up add up to 100% or 100.01% |
| Counts.Counts.constructor | src/index.ts:108-109 | a new object holding a copy of the given counts |
| Counts.Counts.AddFileTo | src/lib/utils.ts:129-155 | the object's new value is `AddFile` of its old value |
| Counts.Counts.IncrementFileTypeCounts | src/lib/utils.ts:105-159 | the object's new value is `Increment` of its old value for the file's path and content |
| Counts.Counts.CalculateScores | src/lib/utils.ts:18-62 | the loop and the root update leave the object at `ScoresCalculated` of its old value |
| CountsExamples.PlainIsScored | src/lib/__tests__/utils.spec.ts:32-55 | the plain fixture's percentages 60/40 and 88.81/11.19 and score 80.17 are what scoring computes |
| CountsExamples.VueIsScored | src/lib/__tests__/utils.spec.ts:56-79 | the vue fixture's percentages 56.25/43.75 and 61.19/38.81 and score 59.71 are what scoring computes |
| CountsExamples.FixtureTotals | src/lib/__tests__/utils.spec.ts:261-275 | the fixture's js totals are 11 files and 110 lines, its ts totals 15 files and 377 lines |
| CountsExamples.FixtureIsScored | src/lib/__tests__/utils.spec.ts:109-183 | `calculateScores` gives the fixture back unchanged, root 57.69/42.31, 77.41/22.59 and score 71.49 included |
| IgnorePatterns.GetIgnorePatterns | src/lib/utils.ts:64-82 | the pushed list is `IgnorePatterns`: the defaults, then the kept lines of the file in order; only the defaults when the file cannot be read |
| IgnorePatterns.KeptPatternsAppend | src/lib/utils.ts:71-76 | the patterns kept from two runs of lines are those of each, in order |
| IgnorePatterns.KeptPatternsStep | src/lib/utils.ts:71-76 | one more line adds the pattern kept from it, if any |
| IgnorePatterns.DefaultsComeFirst | src/constants.ts:42-47 | the list starts with `**/node_modules`, `**/dist`, `**/build`, `**/.*` and is exactly those when there is no file |
| IgnorePatterns.KeptPatternsAreTrimmedLines | src/lib/utils.ts:72-75 | a pattern is kept exactly when it is the trim of some line and neither empty nor a `#` comment; kept patterns have no surrounding whitespace |
| IgnorePatterns.LineKinds | src/lib/utils.ts:74-75 | an indented pattern line keeps the pattern, an indented `#` line and a blank line keep nothing |
| IgnorePatterns.CleanFileKeepsEveryLine | src/lib/utils.ts:71-76 | a file whose lines are all clean patterns contributes exactly those lines after the defaults |
| IgnorePatterns.KeptEveryPattern | src/lib/utils.ts:74-75 | clean patterns are all kept, in order |
| IgnorePatterns.IsFileIgnored | src/lib/utils.ts:84-87 | a path is ignored exactly when the left-to-right `some` scan over the patterns stops at a match, the glob matcher being a parameter; `IgnoredUnderMorePatterns` splits it over concatenated lists |
| IgnorePatterns.SomeMatchesFindsMatch | src/lib/utils.ts:84-87 | the `some` scan stops at a match exactly when some pattern of the list matches the path |
| IgnorePatterns.IgnoredUnderMorePatterns | src/lib/utils.ts:84-87 | a path is ignored under a concatenation of pattern lists exactly when it is ignored under one of them |
| Walker.DefaultCounts | src/index.ts:36-106 | the default counts are well formed and consistent |
| Walker.DefaultCountsAreZero | src/index.ts:36-106 | the defaults hold `vue` then `plain` with every count, percentage and score zero, and a zero root |
| Walker.VisitEntry | src/index.ts:114-129 | visiting one entry keeps the counts well formed |
| Walker.WalkEntries | src/index.ts:113-130 | walking a listing keeps the counts well formed |
| Walker.SummariseDirectoryFilesByType | src/index.ts:32-133 | a fresh object, holding the walk of the listing from a copy of the given counts (or the defaults), is returned exactly when the directory can be listed; the given object is not modified |
| Walker.IgnoredEntrySkipped | src/index.ts:114-119 | an ignored entry leaves the counts unchanged and an ignored directory is never read |
| Walker.FailingEntrySkipped | src/index.ts:121-129 | an entry that cannot be stat'ed, read or listed leaves the counts as they were |
| Walker.VisitIsFoldOverFiles | src/index.ts:117-129 | visiting an entry is `incrementFileTypeCounts` folded over the files it contributes, in visit order |
| Walker.WalkIsFoldOverFiles | src/index.ts:113-130 | walking a listing is `incrementFileTypeCounts` folded over all files reached, subdirectories included, in visit order |
| Walker.IncrementAllKeepsConsistent | src/index.ts:123-125 | incrementing file after file keeps the counts consistent |
| Walker.WalkKeepsConsistent | src/index.ts:36-130 | a walk from consistent counts, or from the defaults, ends consistent |
| Walker.IncrementAllCountsFiles | src/index.ts:113-130 | the root file count grows by exactly the number of files that are counted |
| Walker.WalkCountsReachedFiles | src/index.ts:32-133 | a walk from the defaults ends with a root file count equal to the counted files it reached |

## Left out

- Rendering, colours, tables and the command line: src/lib/output.ts, src/lib/table.ts, src/lib/formatting.ts and the `program` set-up in src/index.ts. They are presentation over foreign libraries. Ratings keep their colour keys and emoji as plain data.
- The file system. `fs.readdir`, `fs.stat` and `fs.readFile` become an in-memory `Entry` tree. A file's content is `None` when reading it fails. `UnlistableDirectory` and `Unstattable` stand for the two other failures. The model keeps the order of entries that `readdir` returns.
- `async`/`await`: the walk is sequential, so there is no concurrency to model.
- `path.join` and `path.relative`: paths are relative to the scan root from the start. `Increment` takes the file's extension from its relative path. `path.extname` looks only at the final segment, which is the same in both paths.
- `path.extname` on names such as `..` or a trailing `/` is not modelled. The extension is read from the last `.` of the final segment after its first character.
- `minimatch`: `isFileIgnored` takes the glob matcher as a parameter.
- Regular expressions: the three patterns are hand-written scans. Each scan is proved equal to its pattern's reading, but the general regular-expression engine is not modelled.
- Floating point: percentages and scores are exact hundredths, rounded half up. `toFixed(2)` on a binary double can round a decimal tie down (`1.005` gives `1.00`); the model does not reproduce that.
- `getRating` takes its percentage in hundredths and compares it with the threshold times 100.
- Counts.CalculateScores: requires positive root file and line totals. The root shares divide by them unguarded, so the source gives `NaN` for a scan that found no files or no lines, and `NaN` has no counterpart among whole numbers of hundredths.
- Counts.ScoresCalculated: the same root precondition as `CalculateScores`.
- Scores.CalculatePercentage: requires a positive total. Inside categories the source only divides after checking the total; the root case is the one above.
- Counts.Increment: requires `WellFormed` counts, whose keys include `vue` and `plain`. Without them the source fails on a missing property; the walk always supplies both.
- Counts.Counts.IncrementFileTypeCounts: the source also returns the object it was given; the method changes the object and returns nothing.
- The `|| {}` and `|| 0` fallbacks for missing fields in `calculateScores`, `getTotalsCountForFiletype` and `incrementFileTypeCounts`: every field of a `Counts` value is always present here, so they never apply.
- The test of `getIgnorePatterns` with a template-literal `.gitignore` is covered line by line (`LineKinds`) and for clean files (`CleanFileKeepsEveryLine`), not as the literal text itself.
