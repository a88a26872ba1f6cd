/** The stated laws of folding and sorting can be met: by lowering ASCII letters and by insertion sort. */
module Laws {
  import opened Matching
  import opened TopScores
  import opened Search
  import opened Ranking
  import opened TrailingSpace

  lemma AsciiLowerTwice(t: string)
    ensures AsciiLower(AsciiLower(t)) == AsciiLower(t)
  {}

  lemma AsciiFoldLaws()
    ensures FoldLaws(AsciiLower)
  {
    forall t: string ensures FoldsLikeAscii(AsciiLower, t) {
      AsciiLowerTwice(t);
      assert |AsciiLower(t)| == |t|;
    }
  }

  function InsertDown<T>(sorted: seq<T>, x: T, points: T -> nat): seq<T> {
    if sorted == [] || points(x) >= points(sorted[0]) then [x] + sorted
    else [sorted[0]] + InsertDown(sorted[1..], x, points)
  }

  function SortDown<T>(s: seq<T>, points: T -> nat): seq<T> {
    if s == [] then [] else InsertDown(SortDown(s[1..], points), s[0], points)
  }

  ghost predicate Tops<T>(x: T, s: seq<T>, points: T -> nat) {
    forall k :: 0 <= k < |s| ==> points(s[k]) <= points(x)
  }

  ghost predicate Down<T>(s: seq<T>, points: T -> nat) {
    s == [] || (Tops(s[0], s[1..], points) && Down(s[1..], points))
  }

  lemma {:induction false} InsertDownHolds<T>(sorted: seq<T>, x: T, points: T -> nat)
    ensures multiset(InsertDown(sorted, x, points)) == multiset(sorted) + multiset{x}
  {
    if sorted != [] && points(x) < points(sorted[0]) {
      InsertDownHolds(sorted[1..], x, points);
      assert sorted == [sorted[0]] + sorted[1..];
    }
  }

  lemma {:induction false} InsertDownTops<T>(sorted: seq<T>, x: T, points: T -> nat, top: T)
    requires Tops(top, sorted, points) && points(x) <= points(top)
    ensures Tops(top, InsertDown(sorted, x, points), points)
  {
    if sorted != [] && points(x) < points(sorted[0]) {
      InsertDownTops(sorted[1..], x, points, top);
    }
  }

  lemma {:induction false} InsertDownGoesDown<T>(sorted: seq<T>, x: T, points: T -> nat)
    requires Down(sorted, points)
    ensures Down(InsertDown(sorted, x, points), points)
  {
    if sorted == [] || points(x) >= points(sorted[0]) {
      assert ([x] + sorted)[1..] == sorted;
      assert forall k :: 0 < k < |sorted| ==> sorted[k] == sorted[1..][k - 1];
    } else {
      var rest := InsertDown(sorted[1..], x, points);
      InsertDownGoesDown(sorted[1..], x, points);
      InsertDownTops(sorted[1..], x, points, sorted[0]);
      assert ([sorted[0]] + rest)[1..] == rest;
    }
  }

  lemma {:induction false} DownDescends<T>(s: seq<T>, points: T -> nat)
    requires Down(s, points)
    ensures Descending(PointsOf(s, points))
  {
    if s != [] {
      DownDescends(s[1..], points);
      assert PointsOf(s, points)[1..] == PointsOf(s[1..], points);
      forall i, j | 0 <= i < j < |s| ensures PointsOf(s, points)[i] >= PointsOf(s, points)[j] {
        assert s[j] == s[1..][j - 1];
        if i > 0 { assert PointsOf(s[1..], points)[i - 1] >= PointsOf(s[1..], points)[j - 1]; }
      }
    }
  }

  lemma {:induction false} SortDownSorts<T>(s: seq<T>, points: T -> nat)
    ensures multiset(SortDown(s, points)) == multiset(s) && Down(SortDown(s, points), points)
  {
    if s != [] {
      SortDownSorts(s[1..], points);
      InsertDownHolds(SortDown(s[1..], points), s[0], points);
      InsertDownGoesDown(SortDown(s[1..], points), s[0], points);
      assert s == [s[0]] + s[1..];
    }
  }

  function PlainEnv(): Env {
    Env(AsciiLower, (ms: seq<Scored>) => SortDown(ms, POINTS), (rs: seq<SearchResult>) => SortDown(rs, RESULT_POINTS))
  }

  /** One environment that meets every law. */
  lemma LawsCanBeMet()
    ensures FoldLaws(PlainEnv().fold) && FoldKeepsSpace(PlainEnv().fold) && SortLaws(PlainEnv())
  {
    AsciiFoldLaws();
    AsciiFoldKeepsSpace();
    forall ms: seq<Scored> ensures SortsScored(PlainEnv(), ms) {
      SortDownSorts(ms, POINTS);
      DownDescends(SortDown(ms, POINTS), POINTS);
    }
    forall rs: seq<SearchResult> ensures SortsResults(PlainEnv(), rs) {
      SortDownSorts(rs, RESULT_POINTS);
      DownDescends(SortDown(rs, RESULT_POINTS), RESULT_POINTS);
    }
  }
}
