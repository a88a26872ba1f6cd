/**
 The bounded searches select the right scores: what an index returns, and what
 the drives' merged lists return, are the best `limit` scores of all matches.
 */
module Ranking {
  import opened Basics
  import opened Overlay
  import opened TopScores
  import opened Search

  ghost predicate SortsScored(env: Env, ms: seq<Scored>) {
    multiset(env.sortScored(ms)) == multiset(ms) && Descending(Points(env.sortScored(ms)))
  }

  ghost predicate SortsResults(env: Env, rs: seq<SearchResult>) {
    multiset(env.sortResults(rs)) == multiset(rs) && Descending(ResultPoints(env.sortResults(rs)))
  }

  /** The sorts rearrange their list by descending score; ties fall as they may. */
  ghost predicate SortLaws(env: Env) {
    && (forall ms: seq<Scored> :: SortsScored(env, ms))
    && (forall rs: seq<SearchResult> :: SortsResults(env, rs))
  }

  const RESULT_POINTS: SearchResult -> nat := (r: SearchResult) => r.points

  function ResultPoints(rs: seq<SearchResult>): seq<nat> { PointsOf(rs, RESULT_POINTS) }

  // ----- One index -----

  lemma InsertTopNPoints(heap: seq<Scored>, entry: Scored, cap: nat)
    ensures Points(InsertTopN(heap, entry, cap)) == InsertScore(Points(heap), entry.points, cap)
  {
  }

  /** `insert_top_n` keeps the best `cap` scores of any stream. */
  lemma {:induction false} TopNKeepsTop(ms: seq<Scored>, cap: nat)
    ensures KeepsTop(Points(TopN(ms, cap)), Points(ms), cap)
  {
    if ms == [] {
      KeepsTopRefl([], cap);
    } else {
      var init, m := ms[..|ms| - 1], ms[|ms| - 1];
      TopNKeepsTop(init, cap);
      InsertTopNPoints(TopN(init, cap), m, cap);
      assert ms == init + [m] && Points([m]) == [m.points];
      PointsConcat(init, [m], POINTS);
      InsertKeepsTop(Points(TopN(init, cap)), Points(init), m.points, cap);
    }
  }

  lemma TopNSelects(ms: seq<Scored>, cap: nat)
    ensures |TopN(ms, cap)| <= |ms| && forall m :: m in TopN(ms, cap) ==> m in ms
    ensures |ms| <= cap ==> TopN(ms, cap) == ms
  {
    TopNLength(ms, cap);
    if |ms| <= cap { TopNOfFew(ms, cap); }
    forall m | m in TopN(ms, cap) ensures m in ms {
      TopNMember(ms, cap, m);
    }
  }

  lemma {:induction false} TopNLength(ms: seq<Scored>, cap: nat)
    ensures |TopN(ms, cap)| <= |ms|
  {
    if ms != [] {
      var init, last := ms[..|ms| - 1], ms[|ms| - 1];
      TopNLength(init, cap);
      TopNSnoc(ms, cap);
      InsertTopNSelects(TopN(init, cap), last, cap);
    }
  }

  lemma {:induction false} TopNOfFew(ms: seq<Scored>, cap: nat)
    requires |ms| <= cap
    ensures TopN(ms, cap) == ms
  {
    if ms != [] {
      var init, last := ms[..|ms| - 1], ms[|ms| - 1];
      TopNOfFew(init, cap);
      TopNSnoc(ms, cap);
      InsertTopNSelects(init, last, cap);
      assert ms == init + [last];
    }
  }

  lemma {:induction false} TopNMember(ms: seq<Scored>, cap: nat, m: Scored)
    requires m in TopN(ms, cap)
    ensures m in ms
  {
    if ms != [] {
      var init, last := ms[..|ms| - 1], ms[|ms| - 1];
      TopNSnoc(ms, cap);
      InsertTopNSelects(TopN(init, cap), last, cap);
      if m in TopN(init, cap) {
        TopNMember(init, cap, m);
      }
    }
  }

  lemma TopNSnoc(ms: seq<Scored>, cap: nat)
    requires ms != []
    ensures TopN(ms, cap) == InsertTopN(TopN(ms[..|ms| - 1], cap), ms[|ms| - 1], cap)
  {}

  lemma InsertTopNSelects(heap: seq<Scored>, entry: Scored, cap: nat)
    ensures |InsertTopN(heap, entry, cap)| <= |heap| + 1
    ensures forall m :: m in InsertTopN(heap, entry, cap) ==> m in heap || m == entry
    ensures |heap| < cap ==> InsertTopN(heap, entry, cap) == heap + [entry]
  {}

  ghost predicate AllShow(v: View, ms: seq<Scored>) {
    forall k :: 0 <= k < |ms| ==> Show(v, ms[k]).Some?
  }

  lemma {:induction false} ShownPoints(v: View, ms: seq<Scored>)
    requires AllShow(v, ms)
    ensures ResultPoints(ShowAll(v, ms)) == Points(ms)
  {
    if ms != [] {
      var init := ms[..|ms| - 1];
      ShownPoints(v, init);
      var shown := Show(v, ms[|ms| - 1]).value;
      PointsConcat(ShowAll(v, init), [shown], RESULT_POINTS);
    }
  }

  /** Sorting, truncating and showing keeps the best `limit` scores when every selected path resolves. */
  lemma MaterializeKeepsTop(v: View, env: Env, ms: seq<Scored>, limit: nat)
    requires SortLaws(env) && AllShow(v, Truncate(env.sortScored(ms), limit))
    ensures KeepsTop(ResultPoints(Materialize(v, env, ms, limit)), Points(ms), limit)
  {
    var sorted := env.sortScored(ms);
    assert SortsScored(env, ms);
    ShownPoints(v, Truncate(sorted, limit));
    PointsTruncate(sorted, POINTS, limit);
    TruncateKeepsTop(Points(sorted), limit);
    PointsPermutation(sorted, ms, POINTS);
    KeepsTopPermutation(Truncate(Points(sorted), limit), Points(sorted), Points(ms), limit);
  }

  /** A candidate scan returns the best `limit` scores of all matches. */
  lemma CandidateScanKeepsTop(v: View, env: Env, query: string, source: Option<seq<nat>>, limit: nat, budget: nat)
    requires SortLaws(env) && limit > 0 && env.fold(query) != ""
    requires AllShow(v, Truncate(env.sortScored(TopN(Matches(v, env, env.fold(query), source), 2 * limit)), limit))
    ensures KeepsTop(ResultPoints(SearchCandidates(v, env, query, source, limit, budget).results),
                     Points(Matches(v, env, env.fold(query), source)), limit)
  {
    var ms := Matches(v, env, env.fold(query), source);
    var top := TopN(ms, 2 * limit);
    TopNKeepsTop(ms, 2 * limit);
    MaterializeKeepsTop(v, env, top, limit);
    KeepsTopOfTop(ResultPoints(Materialize(v, env, top, limit)), Points(top), Points(ms), limit, 2 * limit);
  }

  /** The direct search, whose overlay matches bypass the bound, selects the same scores. */
  lemma DirectSearchKeepsTop(v: View, env: Env, query: string, limit: nat)
    requires StructOk(v) && SortLaws(env) && limit > 0
    requires var folded := env.fold(query);
             var base := CollectRange(0, BaseLen(v), ScannedMatcher(v, env, folded));
             var inserted := CollectRange(BaseLen(v), LogicalLen(v), ListedMatcher(v, env, folded));
             AllShow(v, Truncate(env.sortScored(TopN(base, 2 * limit) + inserted), limit))
    ensures KeepsTop(ResultPoints(SearchDirect(v, env, query, limit)),
                     Points(ScannedMatches(v, env, env.fold(query))), limit)
  {
    var folded := env.fold(query);
    var base := CollectRange(0, BaseLen(v), ScannedMatcher(v, env, folded));
    var inserted := CollectRange(BaseLen(v), LogicalLen(v), ListedMatcher(v, env, folded));
    var top := TopN(base, 2 * limit);
    DirectMatches(v, env, folded);
    TopNKeepsTop(base, 2 * limit);
    KeepsTopRefl(Points(inserted), |inserted| + limit);
    MaterializeKeepsTop(v, env, top + inserted, limit);
    PointsConcat(top, inserted, POINTS);
    PointsConcat(base, inserted, POINTS);
    KeepsTopOfParts(ResultPoints(SearchDirect(v, env, query, limit)), Points(top), Points(inserted),
                    Points(base), Points(inserted), limit, 2 * limit, |inserted| + limit);
  }

  lemma DirectMatches(v: View, env: Env, folded: string)
    requires StructOk(v)
    ensures ScannedMatches(v, env, folded) ==
            CollectRange(0, BaseLen(v), ScannedMatcher(v, env, folded)) +
            CollectRange(BaseLen(v), LogicalLen(v), ListedMatcher(v, env, folded))
  {
    CollectRangeSplit(0, BaseLen(v), LogicalLen(v), ScannedMatcher(v, env, folded));
    forall i: nat ensures ScannedMatcher(v, env, folded)(i) == ListedMatcher(v, env, folded)(i) {
      ScannedIsListed(v, i);
    }
    CollectRangeAgrees(BaseLen(v), LogicalLen(v), ScannedMatcher(v, env, folded), ListedMatcher(v, env, folded));
  }

  // ----- Several drives -----

  /** Results of all drives, one list after the other. */
  function Joined(lists: seq<seq<SearchResult>>): seq<SearchResult> {
    if lists == [] then [] else Joined(lists[..|lists| - 1]) + lists[|lists| - 1]
  }

  function JoinedPoints(lists: seq<seq<nat>>): seq<nat> {
    if lists == [] then [] else JoinedPoints(lists[..|lists| - 1]) + lists[|lists| - 1]
  }

  function RankAndLimit(env: Env, rs: seq<SearchResult>, limit: nat): seq<SearchResult> {
    Truncate(env.sortResults(rs), limit)
  }

  lemma RankKeepsTop(env: Env, rs: seq<SearchResult>, limit: nat)
    requires SortLaws(env)
    ensures KeepsTop(ResultPoints(RankAndLimit(env, rs, limit)), ResultPoints(rs), limit)
  {
    var sorted := env.sortResults(rs);
    assert SortsResults(env, rs);
    PointsTruncate(sorted, RESULT_POINTS, limit);
    TruncateKeepsTop(ResultPoints(sorted), limit);
    PointsPermutation(sorted, rs, RESULT_POINTS);
    KeepsTopPermutation(Truncate(ResultPoints(sorted), limit), ResultPoints(sorted), ResultPoints(rs), limit);
  }

  lemma {:induction false} JoinedCapsCount(lists: seq<seq<SearchResult>>, alls: seq<seq<nat>>, limit: nat, t: nat)
    requires |lists| == |alls|
    requires forall d :: 0 <= d < |lists| ==> KeepsTop(ResultPoints(lists[d]), alls[d], limit)
    ensures Min(limit, CountGe(ResultPoints(Joined(lists)), t)) == Min(limit, CountGe(JoinedPoints(alls), t))
  {
    if lists != [] {
      var last := |lists| - 1;
      JoinedCapsCount(lists[..last], alls[..last], limit, t);
      PointsConcat(Joined(lists[..last]), lists[last], RESULT_POINTS);
      CountGeConcat(ResultPoints(Joined(lists[..last])), ResultPoints(lists[last]), t);
      CountGeConcat(JoinedPoints(alls[..last]), alls[last], t);
      assert CapsCount(ResultPoints(lists[last]), alls[last], limit, t);
    }
  }

  /** Merging per-drive truncated lists selects the best `limit` scores over all drives. */
  lemma MergeKeepsTop(env: Env, lists: seq<seq<SearchResult>>, alls: seq<seq<nat>>, limit: nat)
    requires SortLaws(env) && |lists| == |alls|
    requires forall d :: 0 <= d < |lists| ==> KeepsTop(ResultPoints(lists[d]), alls[d], limit)
    ensures KeepsTop(ResultPoints(RankAndLimit(env, Joined(lists), limit)), JoinedPoints(alls), limit)
  {
    RankKeepsTop(env, Joined(lists), limit);
    forall t: nat ensures CapsCount(ResultPoints(RankAndLimit(env, Joined(lists), limit)), JoinedPoints(alls), limit, t) {
      JoinedCapsCount(lists, alls, limit, t);
      assert CapsCount(ResultPoints(RankAndLimit(env, Joined(lists), limit)), ResultPoints(Joined(lists)), limit, t);
    }
  }
}
