/** Scoring one basename against a folded query (search/mod.rs, search/fold.rs). */
module Matching {
  import opened Basics
  import opened Paths

  /** Case folding of whole texts; the source lower-cases with Unicode rules. */
  type Fold = string -> string

  predicate IsAscii(s: string) { forall i :: 0 <= i < |s| ==> s[i] < 128 as char }

  /** Text is held as UTF-8 units: a character starts at each unit that is no continuation. */
  function CharCount(s: string): nat {
    if s == "" then 0
    else CharCount(s[..|s| - 1]) + if 128 <= s[|s| - 1] as int < 192 then 0 else 1
  }

  function LowerChar(c: char): char { if IsAsciiUpper(c) then (c as int + 32) as char else c }

  function AsciiLower(s: string): (r: string)
    ensures |r| == |s| && forall i :: 0 <= i < |s| ==> r[i] == LowerChar(s[i])
  {
    seq(|s|, i requires 0 <= i < |s| => LowerChar(s[i]))
  }

  /**
   What the proofs use of Unicode lower-casing: ASCII text is folded letter by
   letter, no ASCII capital is left behind, and no text is folded away.
   */
  ghost predicate FoldLaws(fold: Fold) { forall t: string :: FoldsLikeAscii(fold, t) }

  ghost predicate FoldsLikeAscii(fold: Fold, t: string) {
    && (IsAscii(t) ==> fold(t) == AsciiLower(t))
    && AsciiLower(fold(t)) == fold(t)
    && (t != "" ==> fold(t) != "")
  }

  function DirectoryBonus(isDir: bool): nat { if isDir then 100 else 0 }

  predicate EqIgnoreAsciiCase(a: string, b: string) { AsciiLower(a) == AsciiLower(b) }

  predicate OccursAt(hay: string, needle: string, at: nat, ignoreCase: bool) {
    at + |needle| <= |hay| &&
    var window := hay[at..at + |needle|];
    if ignoreCase then EqIgnoreAsciiCase(window, needle) else window == needle
  }

  /** First position of the needle at or after `from`. */
  function FindFrom(hay: string, needle: string, from: nat, ignoreCase: bool): Option<nat>
    decreases |hay| - from
  {
    if from + |needle| > |hay| then None
    else if OccursAt(hay, needle, from, ignoreCase) then Some(from)
    else FindFrom(hay, needle, from + 1, ignoreCase)
  }

  /** A stretch of a name to show as the match. */
  datatype HighlightRange = HighlightRange(start: nat, len: nat)

  datatype Score = Score(points: nat, highlight: seq<HighlightRange>)

  function BasePoints(whole: bool, start: nat): nat {
    if whole then 1000 else if start == 0 then 900 else 800
  }

  function ScoreAt(query: string, whole: bool, start: nat, isDir: bool): Score {
    Score(BasePoints(whole, start) + DirectoryBonus(isDir), [HighlightRange(start, |query|)])
  }

  /** Points and highlights, or None when the name does not match; the empty query highlights nothing. */
  function ScoreName(fold: Fold, query: string, name: string, isDir: bool): Option<Score> {
    if query == "" then Some(Score(DirectoryBonus(isDir), []))
    else if IsAscii(query) && IsAscii(name) then
      match FindFrom(name, query, 0, true)
      case None => None
      case Some(start) => Some(ScoreAt(query, |name| == |query|, start, isDir))
    else
      match FindFrom(fold(name), query, 0, false)
      case None => None
      case Some(start) => Some(ScoreAt(query, fold(name) == query, start, isDir))
  }

  // ----- A match is a substring of the folded name -----

  ghost predicate Contains(hay: string, needle: string) {
    exists i: nat :: OccursAt(hay, needle, i, false)
  }

  lemma {:induction false} FindFromIs(hay: string, needle: string, from: nat, ignoreCase: bool)
    ensures FindFrom(hay, needle, from, ignoreCase).Some? <==>
            exists i: nat :: from <= i && OccursAt(hay, needle, i, ignoreCase)
    decreases |hay| - from
  {
    if from + |needle| <= |hay| && !OccursAt(hay, needle, from, ignoreCase) {
      FindFromIs(hay, needle, from + 1, ignoreCase);
    }
  }

  lemma IgnoringCaseIsLowering(hay: string, needle: string, i: nat)
    requires AsciiLower(needle) == needle
    ensures OccursAt(hay, needle, i, true) <==> OccursAt(AsciiLower(hay), needle, i, false)
  {
    if i + |needle| <= |hay| {
      assert AsciiLower(hay[i..i + |needle|]) == AsciiLower(hay)[i..i + |needle|];
    }
  }

  /** Both branches of the matcher agree: a name matches when its folded form contains the query. */
  lemma MatchIsContains(fold: Fold, query: string, name: string, isDir: bool)
    requires FoldLaws(fold) && query != "" && AsciiLower(query) == query
    ensures ScoreName(fold, query, name, isDir).Some? <==> Contains(fold(name), query)
  {
    assert FoldsLikeAscii(fold, name);
    if IsAscii(query) && IsAscii(name) {
      FindFromIs(name, query, 0, true);
      forall i: nat ensures OccursAt(name, query, i, true) <==> OccursAt(fold(name), query, i, false) {
        IgnoringCaseIsLowering(name, query, i);
      }
    } else {
      FindFromIs(fold(name), query, 0, false);
    }
  }

  lemma {:induction false} FindFromIsFirst(hay: string, needle: string, from: nat, ignoreCase: bool)
    ensures var found := FindFrom(hay, needle, from, ignoreCase);
            found.Some? ==>
              && from <= found.value && OccursAt(hay, needle, found.value, ignoreCase)
              && forall i: nat :: from <= i < found.value ==> !OccursAt(hay, needle, i, ignoreCase)
    decreases |hay| - from
  {
    if from + |needle| <= |hay| && !OccursAt(hay, needle, from, ignoreCase) {
      FindFromIsFirst(hay, needle, from + 1, ignoreCase);
    }
  }

  ghost predicate FirstAt(hay: string, needle: string, at: nat) {
    OccursAt(hay, needle, at, false) && forall i: nat :: i < at ==> !OccursAt(hay, needle, i, false)
  }

  /** The first occurrence of the query in the folded name is found, in both branches. */
  lemma FirstIsFound(fold: Fold, query: string, name: string)
    requires FoldLaws(fold) && AsciiLower(query) == query
    ensures var ascii := IsAscii(query) && IsAscii(name);
            var found := if ascii then FindFrom(name, query, 0, true) else FindFrom(fold(name), query, 0, false);
            forall at: nat :: found == Some(at) <==> FirstAt(fold(name), query, at)
  {
    assert FoldsLikeAscii(fold, name);
    if IsAscii(query) && IsAscii(name) {
      forall i: nat ensures OccursAt(name, query, i, true) <==> OccursAt(fold(name), query, i, false) {
        IgnoringCaseIsLowering(name, query, i);
      }
      FoundIsFirst(name, query, true);
    } else {
      FoundIsFirst(fold(name), query, false);
    }
  }

  lemma FoundIsFirst(hay: string, needle: string, ignoreCase: bool)
    ensures forall at: nat :: FindFrom(hay, needle, 0, ignoreCase) == Some(at) <==>
              OccursAt(hay, needle, at, ignoreCase) && forall i: nat :: i < at ==> !OccursAt(hay, needle, i, ignoreCase)
  {
    FindFromIs(hay, needle, 0, ignoreCase);
    FindFromIsFirst(hay, needle, 0, ignoreCase);
  }

  /** What a match that begins at `at` of the folded name is worth. */
  ghost predicate Worth(folded: string, query: string, isDir: bool, at: nat, s: Score) {
    && FirstAt(folded, query, at) && s.highlight == [HighlightRange(at, |query|)]
    && s.points == (if folded == query then 1000 else if query <= folded then 900 else 800) + if isDir then 100 else 0
  }

  /**
   A match of the whole name is worth 1000 points, one at its start 900, one
   inside it 800, and a directory is worth 100 more; what is highlighted is the
   first occurrence.
   */
  lemma ScoreIsWorth(fold: Fold, query: string, name: string, isDir: bool, s: Score)
    requires FoldLaws(fold) && query != "" && AsciiLower(query) == query
    ensures ScoreName(fold, query, name, isDir) == Some(s) <==> exists at: nat :: Worth(fold(name), query, isDir, at, s)
  {
    FirstIsFound(fold, query, name);
    assert FoldsLikeAscii(fold, name);
    assert forall at: nat :: FirstAt(fold(name), query, at) ==> fold(name)[at..at + |query|] == query;
    if query <= fold(name) {
      assert fold(name)[0..0 + |query|] == query;
      assert OccursAt(fold(name), query, 0, false);
    }
    if ScoreName(fold, query, name, isDir) == Some(s) { assert Worth(fold(name), query, isDir, s.highlight[0].start, s); }
  }

  /** The empty query finds every name and highlights nothing. */
  lemma EmptyQueryScores(fold: Fold, name: string, isDir: bool)
    ensures ScoreName(fold, "", name, isDir) == Some(Score(if isDir then 100 else 0, []))
  {}

  lemma ContainsTransitive(a: string, b: string, c: string)
    requires Contains(a, b) && Contains(b, c)
    ensures Contains(a, c)
  {
    var i: nat :| OccursAt(a, b, i, false);
    var j: nat :| OccursAt(b, c, j, false);
    var at := i + j;
    forall k | 0 <= k < |c| ensures a[at..at + |c|][k] == c[k] {
      assert a[at + k] == a[i..i + |b|][j + k] && b[j + k] == b[j..j + |c|][k];
    }
    assert a[at..at + |c|] == c;
    assert OccursAt(a, c, i + j, false);
  }

  lemma ContainsItself(s: string)
    ensures Contains(s, s)
  {
    assert s[0..0 + |s|] == s;
    assert OccursAt(s, s, 0, false);
  }

  /** Every name that matches the narrower query matches the broader one. */
  ghost predicate Narrows(fold: Fold, broad: string, narrow: string) {
    forall name: string, isDir: bool ::
      ScoreName(fold, fold(narrow), name, isDir).Some? ==> ScoreName(fold, fold(broad), name, isDir).Some?
  }

  /** Narrowing is safe if and only if the folded narrow query contains the folded broad one. */
  lemma NarrowsIffContains(fold: Fold, broad: string, narrow: string)
    requires FoldLaws(fold) && broad != "" && narrow != ""
    ensures Narrows(fold, broad, narrow) <==> Contains(fold(narrow), fold(broad))
  {
    assert FoldsLikeAscii(fold, broad) && FoldsLikeAscii(fold, narrow);
    if Contains(fold(narrow), fold(broad)) {
      forall name: string, isDir: bool | ScoreName(fold, fold(narrow), name, isDir).Some?
        ensures ScoreName(fold, fold(broad), name, isDir).Some?
      {
        MatchIsContains(fold, fold(narrow), name, isDir);
        MatchIsContains(fold, fold(broad), name, isDir);
        ContainsTransitive(fold(name), fold(narrow), fold(broad));
      }
    }
    if Narrows(fold, broad, narrow) {
      ContainsItself(fold(narrow));
      MatchIsContains(fold, fold(narrow), narrow, false);
      MatchIsContains(fold, fold(broad), narrow, false);
    }
  }
}
