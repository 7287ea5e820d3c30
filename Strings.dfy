/**
 * The few JavaScript string operations the program relies on, over Dafny's
 * `string`: `trim`, `startsWith`, `endsWith`, `split` on a one-character
 * separator, and matching a literal at a position. A Dafny `char` is a
 * Unicode scalar value where a JavaScript string holds UTF-16 code units;
 * nothing modelled here depends on the difference, since files are read as
 * UTF-8 and every character these operations look for is in the Basic
 * Multilingual Plane.
 */
module Strings {

  /**
   * The characters `String.prototype.trim` strips and the regular-expression
   * class `\s` matches: ECMAScript's WhiteSpace and LineTerminator sets.
   */
  const Whitespace: set<char> := {
    '\t', '\n', '\U{000B}', '\U{000C}', '\r', ' ', '\U{00A0}', '\U{1680}',
    '\U{2000}', '\U{2001}', '\U{2002}', '\U{2003}', '\U{2004}', '\U{2005}',
    '\U{2006}', '\U{2007}', '\U{2008}', '\U{2009}', '\U{200A}',
    '\U{2028}', '\U{2029}', '\U{202F}', '\U{205F}', '\U{3000}', '\U{FEFF}'
  }

  predicate IsWhitespace(c: char) {
    c in Whitespace
  }

  /** Every character of `s` is whitespace. */
  predicate AllWhitespace(s: string) {
    forall k :: 0 <= k < |s| ==> IsWhitespace(s[k])
  }

  predicate StartsWith(s: string, prefix: string) {
    |prefix| <= |s| && s[..|prefix|] == prefix
  }

  predicate EndsWith(s: string, suffix: string) {
    |suffix| <= |s| && s[|s| - |suffix|..] == suffix
  }

  /** `pattern` occurs in `s` starting at index `i`. */
  predicate StartsAt(s: string, i: nat, pattern: string) {
    i + |pattern| <= |s| && s[i..i + |pattern|] == pattern
  }

  /** The first index at or after `i` that does not hold whitespace (or `|s|`). */
  function SkipWhitespace(s: string, i: nat): (r: nat)
    requires i <= |s|
    ensures i <= r <= |s|
    ensures forall k :: i <= k < r ==> IsWhitespace(s[k])
    ensures r < |s| ==> !IsWhitespace(s[r])
    decreases |s| - i
  {
    if i < |s| && IsWhitespace(s[i]) then SkipWhitespace(s, i + 1) else i
  }

  /** The end of `s[lo..j]` once its trailing whitespace is dropped. */
  function SkipWhitespaceBack(s: string, lo: nat, j: nat): (r: nat)
    requires lo <= j <= |s|
    ensures lo <= r <= j
    ensures forall k :: r <= k < j ==> IsWhitespace(s[k])
    ensures r > lo ==> !IsWhitespace(s[r - 1])
    decreases j
  {
    if j > lo && IsWhitespace(s[j - 1]) then SkipWhitespaceBack(s, lo, j - 1) else j
  }

  /** `String.prototype.trim`: whitespace removed from both ends. */
  function Trim(s: string): (r: string)
    ensures |r| <= |s|
    ensures r == [] <==> AllWhitespace(s)
    ensures r != [] ==> !IsWhitespace(r[0]) && !IsWhitespace(r[|r| - 1])
  {
    var a := SkipWhitespace(s, 0);
    var b := SkipWhitespaceBack(s, a, |s|);
    s[a..b]
  }

  /** `s.split(sep)` for a one-character separator: the pieces between separators. */
  function Split(s: string, sep: char): (r: seq<string>)
    ensures |r| >= 1
    ensures forall i :: 0 <= i < |r| ==> sep !in r[i]
  {
    if s == [] then [[]]
    else
      var rest := Split(s[1..], sep);
      if s[0] == sep then [[]] + rest
      else [[s[0]] + rest[0]] + rest[1..]
  }

  /** `pieces.join(sep)`: the pieces with one separator between neighbours. */
  function Join(pieces: seq<string>, sep: char): string
  {
    if pieces == [] then []
    else if |pieces| == 1 then pieces[0]
    else pieces[0] + [sep] + Join(pieces[1..], sep)
  }

  /** Splitting and then joining again gives the text back. */
  lemma {:induction false} JoinSplit(s: string, sep: char)
    ensures Join(Split(s, sep), sep) == s
  {
    if s != [] {
      JoinSplit(s[1..], sep);
      var rest := Split(s[1..], sep);
      if s[0] == sep {
        assert s == [sep] + s[1..];
      } else if |rest| == 1 {
        assert s == [s[0]] + s[1..];
      } else {
        assert Join(rest, sep) == rest[0] + [sep] + Join(rest[1..], sep);
        assert s == [s[0]] + s[1..];
      }
    }
  }

  /** Joining pieces that hold no separator and splitting again gives the pieces back. */
  lemma {:induction false} SplitJoin(pieces: seq<string>, sep: char)
    requires |pieces| >= 1
    requires forall i :: 0 <= i < |pieces| ==> sep !in pieces[i]
    ensures Split(Join(pieces, sep), sep) == pieces
  {
    if |pieces| == 1 {
      SplitPiece(pieces[0], [], sep);
    } else {
      SplitJoin(pieces[1..], sep);
      SplitPiece(pieces[0], Join(pieces[1..], sep), sep);
    }
  }

  /** Splitting a separator-free piece followed by a separator and a tail. */
  lemma {:induction false} SplitPiece(piece: string, tail: string, sep: char)
    requires sep !in piece
    ensures tail == [] ==> Split(piece, sep) == [piece]
    ensures Split(piece + [sep] + tail, sep) == [piece] + Split(tail, sep)
  {
    if piece != [] {
      SplitPiece(piece[1..], tail, sep);
      assert (piece + [sep] + tail)[1..] == piece[1..] + [sep] + tail;
      assert piece == [piece[0]] + piece[1..];
    } else {
      assert ([] + [sep] + tail)[1..] == tail;
    }
  }

  /** A separator at the end of the text adds one empty piece and changes nothing else. */
  lemma {:induction false} SplitTrailingSeparator(s: string, sep: char)
    ensures Split(s + [sep], sep) == Split(s, sep) + [[]]
  {
    if s != [] {
      var tail, rest := s[1..], Split(s[1..], sep);
      SplitTrailingSeparator(tail, sep);
      assert (s + [sep])[0] == s[0] && (s + [sep])[1..] == tail + [sep];
      var longer := Split(tail + [sep], sep);
      assert longer == rest + [[]];
      if s[0] == sep {
        assert [[]] + longer == ([[]] + rest) + [[]];
      } else {
        assert longer[0] == rest[0] && longer[1..] == rest[1..] + [[]];
        assert [[s[0]] + longer[0]] + longer[1..] == ([[s[0]] + rest[0]] + rest[1..]) + [[]];
      }
    }
  }

  /** Every character of every piece comes from the text. */
  lemma {:induction false} SplitPiecesFromText(s: string, sep: char)
    ensures forall i, k :: 0 <= i < |Split(s, sep)| && 0 <= k < |Split(s, sep)[i]| ==> Split(s, sep)[i][k] in s
  {
    if s != [] {
      SplitPiecesFromText(s[1..], sep);
    }
  }

  /**
   * The trim is the text with its leading and trailing whitespace removed:
   * a slice of the text with only whitespace in front of it and after it.
   */
  lemma TrimRemovesOuterWhitespace(s: string)
    ensures exists a, b :: 0 <= a <= b <= |s| && Trim(s) == s[a..b] && AllWhitespace(s[..a]) && AllWhitespace(s[b..])
  {
    var a := SkipWhitespace(s, 0);
    var b := SkipWhitespaceBack(s, a, |s|);
    assert AllWhitespace(s[..a]) by {
      forall k | 0 <= k < a ensures IsWhitespace(s[..a][k]) {
        assert s[..a][k] == s[k];
      }
    }
    assert AllWhitespace(s[b..]) by {
      forall k | 0 <= k < |s| - b ensures IsWhitespace(s[b..][k]) {
        assert s[b..][k] == s[b + k];
      }
    }
    assert Trim(s) == s[a..b];
  }

  /** Trimming a text whose ends are not whitespace, padded with whitespace on both sides, gives the text. */
  lemma TrimBothEnds(front: string, core: string, back: string)
    requires AllWhitespace(front) && AllWhitespace(back)
    requires core != [] && !IsWhitespace(core[0]) && !IsWhitespace(core[|core| - 1])
    ensures Trim(front + core + back) == core
  {
    var s := front + core + back;
    var a, b := |front|, |front| + |core|;
    assert s[a] == core[0] && s[b - 1] == core[|core| - 1];
    SkipPadding(s, a, 0);
    SkipBackPadding(s, a, b, |s|);
    assert s[a..b] == core;
  }

  lemma {:induction false} SkipBackPadding(s: string, lo: nat, n: nat, j: nat)
    requires lo < n <= j <= |s|
    requires forall k :: n <= k < j ==> IsWhitespace(s[k])
    requires !IsWhitespace(s[n - 1])
    ensures SkipWhitespaceBack(s, lo, j) == n
    decreases j
  {
    if n < j {
      SkipBackPadding(s, lo, n, j - 1);
    }
  }

  /** Trimming whitespace padding in front of a text whose ends are not whitespace gives the text. */
  lemma TrimPadded(pad: string, core: string)
    requires AllWhitespace(pad)
    requires core != [] && !IsWhitespace(core[0]) && !IsWhitespace(core[|core| - 1])
    ensures Trim(pad + core) == core
  {
    SkipPadding(pad + core, |pad|, 0);
    assert (pad + core)[|pad|..|pad + core|] == core;
  }

  /** Text that neither starts nor ends with whitespace is its own trim. */
  lemma TrimUnpadded(core: string)
    requires core != [] && !IsWhitespace(core[0]) && !IsWhitespace(core[|core| - 1])
    ensures Trim(core) == core
  {
    assert core[0..|core|] == core;
  }

  lemma {:induction false} SkipPadding(s: string, n: nat, i: nat)
    requires i <= n < |s|
    requires forall k :: i <= k < n ==> IsWhitespace(s[k])
    requires !IsWhitespace(s[n])
    ensures SkipWhitespace(s, i) == n
    decreases n - i
  {
    if i < n {
      SkipPadding(s, n, i + 1);
    }
  }

  /** The same with the whitespace run given as a slice. */
  lemma SkipPaddingSlice(s: string, n: nat, i: nat)
    requires i <= n < |s| && AllWhitespace(s[i..n]) && !IsWhitespace(s[n])
    ensures SkipWhitespace(s, i) == n
  {
    forall k | i <= k < n ensures IsWhitespace(s[k]) {
      assert s[i..n][k - i] == s[k];
    }
    SkipPadding(s, n, i);
  }
}
