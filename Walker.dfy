/**
 * The directory walk `summariseDirectoryFilesByType`: every entry of a
 * listing, in order, is skipped when its path relative to the scan root is
 * ignored, descended into when it is a directory and counted when it is a
 * file, threading one `Counts` accumulator through the whole tree. A failing
 * entry is passed over; only a failure to list the directory itself
 * propagates.
 *
 * The file system is an in-memory tree: each entry says what `fs.stat`,
 * `fs.readFile` and `fs.readdir` would give for it.
 */
module Walker {
  import opened Wrappers
  import opened Counts
  import opened IgnorePatterns
  import Constants
  import VueMatcher

  /** One directory entry, as the file system would report it. */
  datatype Entry =
      /** A file and its text; `None` when it cannot be read. */
    | File(name: string, content: Option<string>)
      /** A directory and its entries. */
    | Directory(name: string, entries: seq<Entry>)
      /** A directory `fs.readdir` fails on. */
    | UnlistableDirectory(name: string)
      /** An entry `fs.stat` fails on. */
    | Unstattable(name: string)

  /** The number of entries in a tree, counting the entry itself. */
  function EntrySize(entry: Entry): nat
    decreases entry
  {
    match entry
    case Directory(_, entries) => 1 + ListingSize(entries)
    case _ => 1
  }

  function ListingSize(entries: seq<Entry>): nat
    decreases entries
  {
    if entries == [] then 0 else EntrySize(entries[0]) + ListingSize(entries[1..])
  }

  /** Each entry of a listing is part of its size. */
  lemma {:induction false} EntryWithinListing(entries: seq<Entry>, i: nat)
    requires i < |entries|
    ensures 1 <= EntrySize(entries[i]) <= ListingSize(entries)
    decreases entries
  {
    if i > 0 {
      EntryWithinListing(entries[1..], i - 1);
    }
  }

  /** The glob matcher, `minimatch(path, pattern)`. */
  type Matcher = (string, string) -> bool

  /** `path.relative(root, path.join(root, directory, name))`, with `directory` already relative to the root. */
  function RelativePath(directory: string, name: string): string {
    if directory == [] then name else directory + "/" + name
  }

  function EmptyCategory(key: string, caption: string): Category {
    Category(key, caption, NoFiles(), NoFiles(), NoPercentages, 0, NoFiles())
  }

  /** The counts the walk starts from when it is given none: both categories and the root at zero. */
  function DefaultCounts(): (counts: CountsValue)
    ensures WellFormed(counts) && Consistent(counts)
  {
    var vue := EmptyCategory(VueKey, "Vue SFC");
    var plain := EmptyCategory(PlainKey, "Plain JS/TS");
    var filetypes := [vue, plain];
    assert vue.key[0] != plain.key[0];
    assert filetypes[0] == vue && filetypes[1] == plain;
    NothingPlusNothing();
    SumOfEmptyTotals(filetypes);
    CountsValue(filetypes, NoFiles(), NoPercentages, 0)
  }

  /** The default counts hold the two categories, `vue` first, with every count, percentage and score at zero. */
  lemma DefaultCountsAreZero()
    ensures var counts := DefaultCounts();
      && |counts.filetypes| == 2
      && counts.filetypes[0] == EmptyCategory(VueKey, "Vue SFC")
      && counts.filetypes[1] == EmptyCategory(PlainKey, "Plain JS/TS")
      && counts.total == NoFiles() && counts.percentages == NoPercentages && counts.score == 0
  {
  }

  /** One entry of the loop body, with `directory` the path of its directory relative to the root. */
  function VisitEntry(counts: CountsValue, directory: string, entry: Entry, patterns: seq<string>, matches: Matcher): (counts': CountsValue)
    requires WellFormed(counts)
    ensures WellFormed(counts')
    decreases entry
  {
    var relativePath := RelativePath(directory, entry.name);
    if IsFileIgnored(relativePath, patterns, matches) then counts
    else match entry
      case Unstattable(_) => counts
      case UnlistableDirectory(_) => counts
      case Directory(_, entries) => WalkEntries(counts, relativePath, entries, patterns, matches)
      case File(_, content) =>
        (match content
         case None => counts
         case Some(text) => IncrementKeepsShape(counts, relativePath, text); Increment(counts, relativePath, text))
  }

  /** The loop over a listing, from its first entry. */
  function WalkEntries(counts: CountsValue, directory: string, entries: seq<Entry>, patterns: seq<string>, matches: Matcher): (counts': CountsValue)
    requires WellFormed(counts)
    ensures WellFormed(counts')
    decreases entries
  {
    if entries == [] then counts
    else WalkEntries(VisitEntry(counts, directory, entries[0], patterns, matches), directory, entries[1..], patterns, matches)
  }

  /**
   * `summariseDirectoryFilesByType(directory, filetypeCounts)` on a directory
   * whose entries are `listing`: a new `Counts` object, or `None` when the
   * directory cannot be listed. The object passed in is copied, never
   * changed.
   */
  method SummariseDirectoryFilesByType(directory: string, listing: Option<seq<Entry>>, filetypeCounts: Counts?,
                                       patterns: seq<string>, matches: Matcher)
    returns (result: Option<Counts>)
    requires filetypeCounts != null ==> WellFormed(filetypeCounts.Value())
    ensures result.Some? <==> listing.Some?
    ensures result.Some? ==>
      && fresh(result.value)
      && result.value.Value()
         == WalkEntries(if filetypeCounts == null then DefaultCounts() else old(filetypeCounts.Value()),
                        directory, listing.value, patterns, matches)
    decreases if listing.Some? then ListingSize(listing.value) else 0
  {
    var counts: Counts;
    if filetypeCounts == null {
      counts := new Counts(DefaultCounts());
    } else {
      counts := new Counts(filetypeCounts.Value());
    }
    ghost var start := counts.Value();
    if listing.None? {
      return None;
    }
    var files := listing.value;
    for i := 0 to |files|
      invariant fresh(counts) && WellFormed(counts.Value())
      invariant WalkEntries(counts.Value(), directory, files[i..], patterns, matches)
             == WalkEntries(start, directory, files, patterns, matches)
    {
      var file := files[i];
      ghost var before := counts.Value();
      assert files[i..][1..] == files[i + 1..];
      var relativePath := RelativePath(directory, file.name);
      if IsFileIgnored(relativePath, patterns, matches) {
        continue;
      }
      match file {
        case Unstattable(_) =>
        case UnlistableDirectory(_) =>
          EntryWithinListing(files, i);
          // The recursive call fails on the listing; the failure is caught and the counts stay as they were.
          var failed := SummariseDirectoryFilesByType(relativePath, None, counts, patterns, matches);
        case Directory(_, children) =>
          EntryWithinListing(files, i);
          var summary := SummariseDirectoryFilesByType(relativePath, Some(children), counts, patterns, matches);
          if summary.Some? {
            counts := summary.value;
          }
        case File(_, content) =>
          if content.Some? {
            counts.IncrementFileTypeCounts(relativePath, content.value);
          }
      }
      assert counts.Value() == VisitEntry(before, directory, file, patterns, matches);
    }
    return Some(counts);
  }

  /** An ignored entry leaves the counts as they were, whatever it holds: an ignored directory is never read. */
  lemma IgnoredEntrySkipped(counts: CountsValue, directory: string, entry: Entry, patterns: seq<string>, matches: Matcher)
    requires WellFormed(counts)
    requires IsFileIgnored(RelativePath(directory, entry.name), patterns, matches)
    ensures VisitEntry(counts, directory, entry, patterns, matches) == counts
  {
  }

  /** An entry that cannot be stat'ed, read or listed leaves the counts as they were. */
  lemma FailingEntrySkipped(counts: CountsValue, directory: string, entry: Entry, patterns: seq<string>, matches: Matcher)
    requires WellFormed(counts)
    requires entry.Unstattable? || entry.UnlistableDirectory? || (entry.File? && entry.content.None?)
    ensures VisitEntry(counts, directory, entry, patterns, matches) == counts
  {
  }

  /** A file with its path relative to the root and its text. */
  datatype FoundFile = FoundFile(path: string, content: string)

  /** The files an entry contributes, in visit order: readable files reached without crossing an ignored path or a failing entry. */
  function EntryFiles(directory: string, entry: Entry, patterns: seq<string>, matches: Matcher): seq<FoundFile>
    decreases entry
  {
    var relativePath := RelativePath(directory, entry.name);
    if IsFileIgnored(relativePath, patterns, matches) then []
    else match entry
      case Unstattable(_) => []
      case UnlistableDirectory(_) => []
      case Directory(_, entries) => ListingFiles(relativePath, entries, patterns, matches)
      case File(_, content) =>
        (match content
         case None => []
         case Some(text) => [FoundFile(relativePath, text)])
  }

  function ListingFiles(directory: string, entries: seq<Entry>, patterns: seq<string>, matches: Matcher): seq<FoundFile>
    decreases entries
  {
    if entries == [] then []
    else EntryFiles(directory, entries[0], patterns, matches) + ListingFiles(directory, entries[1..], patterns, matches)
  }

  /** `incrementFileTypeCounts` applied to each file in turn. */
  function IncrementAll(counts: CountsValue, files: seq<FoundFile>): (counts': CountsValue)
    requires WellFormed(counts)
    ensures WellFormed(counts')
    decreases files
  {
    if files == [] then counts
    else
      IncrementKeepsShape(counts, files[0].path, files[0].content);
      IncrementAll(Increment(counts, files[0].path, files[0].content), files[1..])
  }

  lemma {:induction false} IncrementAllAppend(counts: CountsValue, a: seq<FoundFile>, b: seq<FoundFile>)
    requires WellFormed(counts)
    ensures IncrementAll(counts, a + b) == IncrementAll(IncrementAll(counts, a), b)
    decreases a
  {
    if a == [] {
      assert a + b == b;
    } else {
      IncrementKeepsShape(counts, a[0].path, a[0].content);
      assert (a + b)[1..] == a[1..] + b;
      IncrementAllAppend(Increment(counts, a[0].path, a[0].content), a[1..], b);
    }
  }

  /**
   * The walk of one entry is `incrementFileTypeCounts` folded over the
   * files it contributes, in visit order.
   */
  lemma {:induction false} VisitIsFoldOverFiles(counts: CountsValue, directory: string, entry: Entry, patterns: seq<string>, matches: Matcher)
    requires WellFormed(counts)
    ensures VisitEntry(counts, directory, entry, patterns, matches)
         == IncrementAll(counts, EntryFiles(directory, entry, patterns, matches))
    decreases entry
  {
    var relativePath := RelativePath(directory, entry.name);
    if !IsFileIgnored(relativePath, patterns, matches) {
      match entry
      case Unstattable(_) =>
      case UnlistableDirectory(_) =>
      case Directory(_, entries) => WalkIsFoldOverFiles(counts, relativePath, entries, patterns, matches);
      case File(_, content) =>
        match content {
          case None =>
          case Some(text) =>
            IncrementKeepsShape(counts, relativePath, text);
            var files := [FoundFile(relativePath, text)];
            assert IncrementAll(counts, files) == IncrementAll(Increment(counts, relativePath, text), files[1..]);
        }
    }
  }

  /**
   * The walk of a listing is `incrementFileTypeCounts` folded over all the
   * files it contributes, subdirectories included, in visit order.
   */
  lemma {:induction false} WalkIsFoldOverFiles(counts: CountsValue, directory: string, entries: seq<Entry>, patterns: seq<string>, matches: Matcher)
    requires WellFormed(counts)
    ensures WalkEntries(counts, directory, entries, patterns, matches)
         == IncrementAll(counts, ListingFiles(directory, entries, patterns, matches))
    decreases entries
  {
    if entries != [] {
      var first := EntryFiles(directory, entries[0], patterns, matches);
      var rest := ListingFiles(directory, entries[1..], patterns, matches);
      VisitIsFoldOverFiles(counts, directory, entries[0], patterns, matches);
      var next := VisitEntry(counts, directory, entries[0], patterns, matches);
      WalkIsFoldOverFiles(next, directory, entries[1..], patterns, matches);
      IncrementAllAppend(counts, first, rest);
    }
  }

  /** Incrementing file after file keeps the counts consistent. */
  lemma {:induction false} IncrementAllKeepsConsistent(counts: CountsValue, files: seq<FoundFile>)
    requires WellFormed(counts) && Consistent(counts)
    ensures Consistent(IncrementAll(counts, files))
    decreases files
  {
    if files != [] {
      IncrementKeepsShape(counts, files[0].path, files[0].content);
      IncrementKeepsConsistent(counts, files[0].path, files[0].content);
      IncrementAllKeepsConsistent(Increment(counts, files[0].path, files[0].content), files[1..]);
    }
  }

  /**
   * A walk from consistent counts ends in consistent counts: every
   * category's total is its js plus its ts, and the root total is the sum of
   * the category totals. The default counts are consistent, so every walk
   * started without counts ends consistent.
   */
  lemma WalkKeepsConsistent(counts: CountsValue, directory: string, entries: seq<Entry>, patterns: seq<string>, matches: Matcher)
    requires WellFormed(counts) && Consistent(counts)
    ensures Consistent(WalkEntries(counts, directory, entries, patterns, matches))
    ensures Consistent(WalkEntries(DefaultCounts(), directory, entries, patterns, matches))
  {
    WalkIsFoldOverFiles(counts, directory, entries, patterns, matches);
    IncrementAllKeepsConsistent(counts, ListingFiles(directory, entries, patterns, matches));
    DefaultCountsAreZero();
    WalkIsFoldOverFiles(DefaultCounts(), directory, entries, patterns, matches);
    IncrementAllKeepsConsistent(DefaultCounts(), ListingFiles(directory, entries, patterns, matches));
  }

  /** A found file the counts take in: a supported extension, and a recognised script when it is a component. */
  predicate Counted(file: FoundFile) {
    var extension := ExtName(file.path);
    extension in Constants.AllFileExtensions
    && !(extension in Constants.VueExtensions && VueMatcher.GetVueSfcScriptType(file.content) == VueMatcher.NoScript)
  }

  function CountedFiles(files: seq<FoundFile>): nat
    decreases files
  {
    if files == [] then 0 else (if Counted(files[0]) then 1 else 0) + CountedFiles(files[1..])
  }

  /** Each file either leaves the counts alone or adds exactly one file to the root total. */
  lemma {:induction false} IncrementAllCountsFiles(counts: CountsValue, files: seq<FoundFile>)
    requires WellFormed(counts)
    ensures IncrementAll(counts, files).total.files == counts.total.files + CountedFiles(files)
    decreases files
  {
    if files != [] {
      IncrementChangesExactlyWhen(counts, files[0].path, files[0].content);
      IncrementKeepsShape(counts, files[0].path, files[0].content);
      IncrementAllCountsFiles(Increment(counts, files[0].path, files[0].content), files[1..]);
    }
  }

  /** A walk started without counts ends with a root total of exactly the counted files it reached. */
  lemma WalkCountsReachedFiles(directory: string, entries: seq<Entry>, patterns: seq<string>, matches: Matcher)
    ensures WalkEntries(DefaultCounts(), directory, entries, patterns, matches).total.files
         == CountedFiles(ListingFiles(directory, entries, patterns, matches))
  {
    DefaultCountsAreZero();
    WalkIsFoldOverFiles(DefaultCounts(), directory, entries, patterns, matches);
    IncrementAllCountsFiles(DefaultCounts(), ListingFiles(directory, entries, patterns, matches));
  }
}
