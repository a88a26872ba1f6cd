/**
 What search results say: every result shows a record as the index holds it, with
 the points that its name earns, the best come first, and where the limit leaves
 room for all matches none is missing.
 */
module Results {
  import opened Basics
  import opened Overlay
  import opened Matching
  import opened TopScores
  import opened Search
  import opened Ranking
  import opened ShortQueries

  /** A record that is not deleted, with this path, this name and of this kind. */
  ghost predicate Depicts(v: View, i: nat, r: SearchResult) {
    && i < LogicalLen(v) && !LogicalIsDeleted(v, i)
    && LogicalPath(v, i) == Ok(r.path) && LogicalName(v, i) == Some(r.name) && LogicalIsDir(v, i) == r.isDirectory
  }

  /** And with the points and highlights that the name earns under the folded query. */
  ghost predicate Answers(v: View, fold: Fold, folded: string, i: nat, r: SearchResult) {
    Depicts(v, i, r) && ScoreName(fold, folded, r.name, r.isDirectory) == Some(Score(r.points, r.highlight))
  }

  /** Record `i` matches the folded query. */
  predicate IsMatch(v: View, fold: Fold, folded: string, i: nat) {
    && i < LogicalLen(v) && !LogicalIsDeleted(v, i) && LogicalName(v, i).Some?
    && ScoreName(fold, folded, LogicalName(v, i).value, LogicalIsDir(v, i)).Some?
  }

  function MatchSet(v: View, fold: Fold, folded: string): set<nat> {
    set i: nat | i < LogicalLen(v) && IsMatch(v, fold, folded, i)
  }

  /** An answer shows its record with the worth of the match in its folded name. */
  lemma AnswerIsWorth(v: View, fold: Fold, folded: string, i: nat, r: SearchResult)
    requires FoldLaws(fold) && folded != "" && AsciiLower(folded) == folded
    ensures Answers(v, fold, folded, i, r) <==>
            Depicts(v, i, r) && exists at: nat :: Worth(fold(r.name), folded, r.isDirectory, at, Score(r.points, r.highlight))
  {
    ScoreIsWorth(fold, folded, r.name, r.isDirectory, Score(r.points, r.highlight));
  }

  // ----- From matches to results -----

  /** The list consists of the matches among some records. */
  ghost predicate MatchesAmong(v: View, env: Env, folded: string, ms: seq<Scored>, among: nat -> bool) {
    forall m: Scored :: m in ms <==> InMatches(v, env, folded, among, m)
  }

  ghost predicate InMatches(v: View, env: Env, folded: string, among: nat -> bool, m: Scored) {
    m.index < LogicalLen(v) && among(m.index) && ListedMatcher(v, env, folded)(m.index) == Some(m)
  }

  lemma ShownIsAnswer(v: View, env: Env, folded: string, i: nat, r: SearchResult)
    requires i < LogicalLen(v)
    ensures Answers(v, env.fold, folded, i, r) <==>
            var m := ListedMatcher(v, env, folded)(i);
            m.Some? && Show(v, m.value) == Some(r)
  {}

  ghost predicate ShownBy(v: View, ms: seq<Scored>, r: SearchResult) { exists m :: m in ms && Show(v, m) == Some(r) }

  lemma {:induction false} ShowAllShows(v: View, ms: seq<Scored>, r: SearchResult)
    ensures r in ShowAll(v, ms) <==> ShownBy(v, ms, r)
  {
    if ms != [] {
      var init, last := ms[..|ms| - 1], ms[|ms| - 1];
      ShowAllShows(v, init, r);
      assert forall m :: m in ms <==> m in init || m == last;
    }
  }

  /** Sorting loses and adds nothing; cutting only loses, and nothing where there is room. */
  lemma SortedSelects(env: Env, ms: seq<Scored>, limit: nat)
    requires SortLaws(env)
    ensures Descending(Points(Truncate(env.sortScored(ms), limit))) && |env.sortScored(ms)| == |ms|
    ensures forall m :: m in Truncate(env.sortScored(ms), limit) ==> m in ms
    ensures |ms| <= limit ==> forall m :: m in ms ==> m in Truncate(env.sortScored(ms), limit)
  {
    var sorted := env.sortScored(ms);
    assert SortsScored(env, ms);
    assert |sorted| == |multiset(sorted)| && |ms| == |multiset(ms)|;
    forall m ensures m in sorted <==> m in ms {
      assert m in multiset(sorted) <==> m in multiset(ms);
    }
    PointsTruncate(sorted, POINTS, limit);
    forall m | m in Truncate(sorted, limit) ensures m in sorted {}
    if |ms| <= limit { assert Truncate(sorted, limit) == sorted; }
  }

  lemma {:induction false} ShownDescend(v: View, ms: seq<Scored>)
    requires Descending(Points(ms))
    ensures Descending(ResultPoints(ShowAll(v, ms))) && |ShowAll(v, ms)| <= |ms|
    ensures forall r :: r in ShowAll(v, ms) ==> exists k :: 0 <= k < |ms| && r.points == Points(ms)[k]
  {
    if ms != [] {
      var init, last := ms[..|ms| - 1], ms[|ms| - 1];
      assert forall k :: 0 <= k < |init| ==> Points(init)[k] == Points(ms)[k];
      ShownDescend(v, init);
      var before := ShowAll(v, init);
      forall k | 0 <= k < |before| ensures ResultPoints(before)[k] >= last.points {
        assert before[k] in before;
        var j :| 0 <= j < |init| && before[k].points == Points(init)[j];
        assert Points(ms)[j] >= Points(ms)[|ms| - 1];
      }
      forall r | r in ShowAll(v, ms) ensures exists k :: 0 <= k < |ms| && r.points == Points(ms)[k] {
        if r in before {
          var j :| 0 <= j < |init| && r.points == Points(init)[j];
          assert Points(ms)[j] == r.points;
        } else {
          assert Points(ms)[|ms| - 1] == r.points;
        }
      }
    }
  }

  /** Results that are ranked and cut answer the query, each for one of its records. */
  lemma MaterializedAnswers(v: View, env: Env, folded: string, ms: seq<Scored>, limit: nat, among: nat -> bool, r: SearchResult)
    requires SortLaws(env) && forall m: Scored :: m in ms ==> InMatches(v, env, folded, among, m)
    ensures var rs := Materialize(v, env, ms, limit);
            && Descending(ResultPoints(rs)) && |rs| <= limit && |rs| <= |ms|
            && (r in rs ==> exists i: nat :: among(i) && Answers(v, env.fold, folded, i, r))
  {
    var cut := Truncate(env.sortScored(ms), limit);
    SortedSelects(env, ms, limit);
    ShownDescend(v, cut);
    ShowAllShows(v, cut, r);
    if r in Materialize(v, env, ms, limit) {
      var m :| m in cut && Show(v, m) == Some(r);
      ShownIsAnswer(v, env, folded, m.index, r);
    }
  }

  /** Where the limit leaves room, no answer is missing. */
  lemma MaterializedIsComplete(v: View, env: Env, folded: string, ms: seq<Scored>, limit: nat, among: nat -> bool, i: nat, r: SearchResult)
    requires SortLaws(env) && |ms| <= limit && MatchesAmong(v, env, folded, ms, among)
    requires among(i) && Answers(v, env.fold, folded, i, r)
    ensures r in Materialize(v, env, ms, limit)
  {
    var cut := Truncate(env.sortScored(ms), limit);
    SortedSelects(env, ms, limit);
    ShowAllShows(v, cut, r);
    ShownIsAnswer(v, env, folded, i, r);
    assert InMatches(v, env, folded, among, ListedMatcher(v, env, folded)(i).value);
  }

  /** Ranking and cutting results selects some of them, and all where there is room. */
  lemma RankedSelects(env: Env, rs: seq<SearchResult>, limit: nat, r: SearchResult)
    requires SortLaws(env)
    ensures var cut := RankAndLimit(env, rs, limit);
            && Descending(ResultPoints(cut)) && |cut| <= limit && (r in cut ==> r in rs)
            && (|rs| <= limit ==> (r in rs ==> r in cut))
  {
    var sorted := env.sortResults(rs);
    assert SortsResults(env, rs);
    assert |sorted| == |multiset(sorted)| && |rs| == |multiset(rs)|;
    assert r in multiset(sorted) <==> r in multiset(rs);
    PointsTruncate(sorted, RESULT_POINTS, limit);
    if |rs| <= limit { assert Truncate(sorted, limit) == sorted; }
  }

  // ----- Which matches are found -----

  lemma {:induction false} CollectMembers(find: nat -> Option<Scored>, ids: seq<nat>, m: Scored)
    requires FindsAt(find)
    ensures m in Collect(ids, find) <==> m.index in ids && find(m.index) == Some(m)
  {
    if ids != [] {
      CollectMembers(find, ids[..|ids| - 1], m);
      assert m.index in ids <==> m.index in ids[..|ids| - 1] || m.index == ids[|ids| - 1];
    }
  }

  lemma {:induction false} RangeMembers(find: nat -> Option<Scored>, lo: nat, hi: nat, m: Scored)
    requires FindsAt(find)
    ensures m in CollectRange(lo, hi, find) <==> lo <= m.index < hi && find(m.index) == Some(m)
  {
    if lo < hi {
      RangeMembers(find, lo, hi - 1, m);
    }
  }

  function All(): nat -> bool { (i: nat) => true }

  function Within(ids: seq<nat>): nat -> bool { (i: nat) => i in ids }

  lemma ScanFindsMatches(v: View, env: Env, folded: string)
    requires StructOk(v)
    ensures MatchesAmong(v, env, folded, ScannedMatches(v, env, folded), All())
  {
    ScanIsListed(v, env, folded);
    forall m: Scored ensures m in ScannedMatches(v, env, folded) <==> InMatches(v, env, folded, All(), m) {
      RangeMembers(ListedMatcher(v, env, folded), 0, LogicalLen(v), m);
    }
  }

  lemma ListFindsMatches(v: View, env: Env, folded: string, ids: seq<nat>)
    ensures MatchesAmong(v, env, folded, ListedMatches(v, env, folded, ids), Within(ids))
  {
    forall m: Scored ensures m in ListedMatches(v, env, folded, ids) <==> InMatches(v, env, folded, Within(ids), m) {
      CollectMembers(ListedMatcher(v, env, folded), ids, m);
    }
  }

  /** Overlay records, and base records whose name, when the index was built, began with the query. */
  function Proposed(v: View, fold: Fold, folded: string): nat -> bool {
    (i: nat) => i >= BaseLen(v) || BuiltWith(v.base, fold, folded, i)
  }

  lemma ShortFindsMatches(v: View, env: Env, folded: string)
    requires folded != "" && CharCount(folded) <= SHORT_QUERY_CHARS
    ensures MatchesAmong(v, env, folded, ShortMatches(v, env, folded), Proposed(v, env.fold, folded))
  {
    var ids := CandidatesOf(BucketsOf(v.base, env.fold), folded);
    var find := ListedMatcher(v, env, folded);
    forall m: Scored
      ensures m in ShortMatches(v, env, folded) <==> InMatches(v, env, folded, Proposed(v, env.fold, folded), m)
    {
      ProposedOnce(v.base, env.fold, folded, BaseLen(v), m.index);
      CollectMembers(find, ids, m);
      RangeMembers(find, BaseLen(v), LogicalLen(v), m);
      assert m.index in ids <==> Times(ids, m.index) > 0;
    }
  }

  // ----- How many matches there are -----

  ghost predicate NoneTwice(ms: seq<Scored>) {
    forall j, k :: 0 <= j < k < |ms| ==> ms[j].index != ms[k].index
  }

  function IndexSeq(ms: seq<Scored>): (s: seq<nat>)
    ensures |s| == |ms|
  {
    seq(|ms|, k requires 0 <= k < |ms| => ms[k].index)
  }

  lemma FewMatches(v: View, env: Env, folded: string, ms: seq<Scored>, among: nat -> bool)
    requires NoneTwice(ms) && MatchesAmong(v, env, folded, ms, among)
    ensures |ms| <= |MatchSet(v, env.fold, folded)|
  {
    forall i | i in IndexSeq(ms) ensures i in MatchSet(v, env.fold, folded) {
      var k :| 0 <= k < |ms| && ms[k].index == i;
      assert InMatches(v, env, folded, among, ms[k]);
    }
    DistinctFits(IndexSeq(ms), MatchSet(v, env.fold, folded));
  }

  lemma {:induction false} RangeHasNoneTwice(find: nat -> Option<Scored>, lo: nat, hi: nat)
    requires FindsAt(find)
    ensures NoneTwice(CollectRange(lo, hi, find))
    ensures forall k :: 0 <= k < |CollectRange(lo, hi, find)| ==> lo <= CollectRange(lo, hi, find)[k].index < hi
  {
    if lo < hi {
      RangeHasNoneTwice(find, lo, hi - 1);
    }
  }

  lemma {:induction false} CollectHasNoneTwice(find: nat -> Option<Scored>, ids: seq<nat>)
    requires FindsAt(find) && Distinct(ids)
    ensures NoneTwice(Collect(ids, find))
    ensures forall k :: 0 <= k < |Collect(ids, find)| ==> Collect(ids, find)[k].index in ids
  {
    if ids != [] {
      CollectHasNoneTwice(find, ids[..|ids| - 1]);
    }
  }

  lemma ScanHasNoneTwice(v: View, env: Env, folded: string)
    requires StructOk(v)
    ensures NoneTwice(ScannedMatches(v, env, folded))
  {
    ScanIsListed(v, env, folded);
    RangeHasNoneTwice(ListedMatcher(v, env, folded), 0, LogicalLen(v));
  }

  lemma ShortHasNoneTwice(v: View, env: Env, folded: string)
    requires folded != "" && CharCount(folded) <= SHORT_QUERY_CHARS
    ensures NoneTwice(ShortMatches(v, env, folded))
  {
    var ids := CandidatesOf(BucketsOf(v.base, env.fold), folded);
    var find := ListedMatcher(v, env, folded);
    forall i: nat ensures Times(ids, i) <= 1 && (i in ids ==> i < BaseLen(v)) {
      ProposedOnce(v.base, env.fold, folded, BaseLen(v), i);
      assert i in ids <==> Times(ids, i) > 0;
    }
    OnceIsDistinct(ids);
    CollectHasNoneTwice(find, ids);
    RangeHasNoneTwice(find, BaseLen(v), LogicalLen(v));
  }

  // ----- The scores of the matches -----

  /** Points of the matches among some records, in index order. */
  function MatchPoints(v: View, fold: Fold, folded: string, among: nat -> bool, hi: nat): seq<nat> {
    if hi == 0 then []
    else
      MatchPoints(v, fold, folded, among, hi - 1) +
      if among(hi - 1) then PointsAt(v, fold, folded, hi - 1) else []
  }

  /** The points of a record, if it matches. */
  function PointsAt(v: View, fold: Fold, folded: string, i: nat): seq<nat> {
    if IsMatch(v, fold, folded, i)
    then [ScoreName(fold, folded, LogicalName(v, i).value, LogicalIsDir(v, i)).value.points] else []
  }

  function AllMatchPoints(v: View, fold: Fold, folded: string, among: nat -> bool): seq<nat> {
    MatchPoints(v, fold, folded, among, LogicalLen(v))
  }

  function Filtered(find: nat -> Option<Scored>, among: nat -> bool): nat -> Option<Scored> {
    (i: nat) => if among(i) then find(i) else None
  }

  lemma PointsOfOne(v: View, env: Env, folded: string, i: nat)
    requires i < LogicalLen(v)
    ensures Points(OneIfSome(ListedMatcher(v, env, folded)(i))) == PointsAt(v, env.fold, folded, i)
  {}

  lemma {:induction false} PointsOfRange(v: View, env: Env, folded: string, among: nat -> bool, hi: nat)
    requires hi <= LogicalLen(v)
    ensures Points(CollectRange(0, hi, Filtered(ListedMatcher(v, env, folded), among))) ==
            MatchPoints(v, env.fold, folded, among, hi)
  {
    if hi > 0 {
      var find := Filtered(ListedMatcher(v, env, folded), among);
      PointsOfRange(v, env, folded, among, hi - 1);
      PointsOfOne(v, env, folded, hi - 1);
      PointsConcat(CollectRange(0, hi - 1, find), OneIfSome(find(hi - 1)), POINTS);
    }
  }

  lemma SameMembersSameBag<T>(a: seq<T>, b: seq<T>)
    requires Distinct(a) && Distinct(b) && forall x :: x in a <==> x in b
    ensures multiset(a) == multiset(b)
  {
    forall x ensures multiset(a)[x] == multiset(b)[x] {
      DistinctOnce(a, x);
      DistinctOnce(b, x);
    }
  }

  /** In whatever order the matches are met, they have these points. */
  lemma MatchesHavePoints(v: View, env: Env, folded: string, ms: seq<Scored>, among: nat -> bool)
    requires NoneTwice(ms) && MatchesAmong(v, env, folded, ms, among)
    ensures multiset(Points(ms)) == multiset(AllMatchPoints(v, env.fold, folded, among))
  {
    var find := Filtered(ListedMatcher(v, env, folded), among);
    var range := CollectRange(0, LogicalLen(v), find);
    RangeHasNoneTwice(find, 0, LogicalLen(v));
    forall m: Scored ensures m in ms <==> m in range {
      RangeMembers(find, 0, LogicalLen(v), m);
      assert m in ms <==> InMatches(v, env, folded, among, m);
    }
    SameMembersSameBag(ms, range);
    PointsPermutation(ms, range, POINTS);
    PointsOfRange(v, env, folded, among, LogicalLen(v));
  }

  // ----- The two searches of one index -----

  /**
   A candidate search of all records, or of listed ones, answers with matches
   among them, best first; with room for all matches it misses none.
   */
  lemma CandidateAnswers(v: View, env: Env, query: string, source: Option<seq<nat>>, limit: nat, budget: nat, r: SearchResult)
    requires StructOk(v) && SortLaws(env) && env.fold(query) != ""
    requires source.Some? ==> Distinct(source.value)
    ensures var rs := SearchCandidates(v, env, query, source, limit, budget).results;
            var answered := exists i: nat :: (source.Some? ==> i in source.value) && Answers(v, env.fold, env.fold(query), i, r);
            && Descending(ResultPoints(rs)) && |rs| <= limit && |rs| <= |MatchSet(v, env.fold, env.fold(query))|
            && (r in rs ==> answered) && (|MatchSet(v, env.fold, env.fold(query))| <= limit ==> (answered ==> r in rs))
  {
    var folded := env.fold(query);
    var ms := Matches(v, env, folded, source);
    var among := if source.Some? then Within(source.value) else All();
    match source {
      case Some(ids) =>
        ListFindsMatches(v, env, folded, ids);
        CollectHasNoneTwice(ListedMatcher(v, env, folded), ids);
      case None =>
        ScanFindsMatches(v, env, folded);
        ScanHasNoneTwice(v, env, folded);
    }
    FewMatches(v, env, folded, ms, among);
    TopNSelects(ms, 2 * limit);
    MaterializedAnswers(v, env, folded, TopN(ms, 2 * limit), limit, among, r);
    if |MatchSet(v, env.fold, folded)| <= limit {
      if i: nat :| among(i) && Answers(v, env.fold, folded, i, r) {
        MaterializedIsComplete(v, env, folded, ms, limit, among, i, r);
      }
    }
  }

  /** The direct search, which lets overlay matches bypass the bound, does so too. */
  lemma DirectAnswers(v: View, env: Env, query: string, limit: nat, r: SearchResult)
    requires StructOk(v) && SortLaws(env)
    ensures var rs := SearchDirect(v, env, query, limit);
            var answered := exists i: nat :: Answers(v, env.fold, env.fold(query), i, r);
            && Descending(ResultPoints(rs)) && |rs| <= limit && |rs| <= |MatchSet(v, env.fold, env.fold(query))|
            && (r in rs ==> answered) && (|MatchSet(v, env.fold, env.fold(query))| <= limit ==> (answered ==> r in rs))
  {
    var folded := env.fold(query);
    var base := CollectRange(0, BaseLen(v), ScannedMatcher(v, env, folded));
    var inserted := CollectRange(BaseLen(v), LogicalLen(v), ListedMatcher(v, env, folded));
    var ms := ScannedMatches(v, env, folded);
    DirectMatches(v, env, folded);
    ScanFindsMatches(v, env, folded);
    ScanHasNoneTwice(v, env, folded);
    FewMatches(v, env, folded, ms, All());
    TopNSelects(base, 2 * limit);
    MaterializedAnswers(v, env, folded, TopN(base, 2 * limit) + inserted, limit, All(), r);
    if |MatchSet(v, env.fold, folded)| <= limit {
      if i: nat :| Answers(v, env.fold, folded, i, r) {
        assert TopN(base, 2 * limit) + inserted == ms;
        assert All()(i);
        MaterializedIsComplete(v, env, folded, ms, limit, All(), i, r);
      }
    }
  }

  lemma ShortAnswers(v: View, env: Env, folded: string, limit: nat, r: SearchResult)
    requires SortLaws(env) && folded != "" && CharCount(folded) <= SHORT_QUERY_CHARS
    ensures var rs := Materialize(v, env, ShortMatches(v, env, folded), limit);
            var answered := exists i: nat :: Proposed(v, env.fold, folded)(i) && Answers(v, env.fold, folded, i, r);
            && Descending(ResultPoints(rs)) && |rs| <= limit && |rs| <= |MatchSet(v, env.fold, folded)|
            && (r in rs ==> answered) && (|MatchSet(v, env.fold, folded)| <= limit ==> (answered ==> r in rs))
  {
    var ms := ShortMatches(v, env, folded);
    var among := Proposed(v, env.fold, folded);
    ShortFindsMatches(v, env, folded);
    ShortHasNoneTwice(v, env, folded);
    FewMatches(v, env, folded, ms, among);
    MaterializedAnswers(v, env, folded, ms, limit, among, r);
    if |MatchSet(v, env.fold, folded)| <= limit {
      if i: nat :| among(i) && Answers(v, env.fold, folded, i, r) {
        MaterializedIsComplete(v, env, folded, ms, limit, among, i, r);
      }
    }
  }

  // ----- The empty query -----

  /** Fewer than `limit` records that are not deleted come before. */
  function AmongFirst(v: View, limit: nat): nat -> bool { (i: nat) => |Select(0, i, Visible(v))| < limit }

  lemma {:induction false} FirstLiveMembers(v: View, env: Env, hi: nat, limit: nat, m: Scored)
    requires StructOk(v) && hi <= LogicalLen(v)
    ensures m in FirstLive(v, hi, limit) <==>
            m.index < hi && AmongFirst(v, limit)(m.index) && ListedMatcher(v, env, "")(m.index) == Some(m)
    ensures |FirstLive(v, hi, limit)| == Min(limit, |Select(0, hi, Visible(v))|)
  {
    if hi > 0 {
      FirstLiveMembers(v, env, hi - 1, limit, m);
      SelectSnoc(0, hi - 1, Visible(v));
      NamePresent(v, hi - 1);
    }
  }

  lemma {:induction false} FirstLiveHasNoneTwice(v: View, hi: nat, limit: nat)
    ensures NoneTwice(FirstLive(v, hi, limit))
    ensures forall k :: 0 <= k < |FirstLive(v, hi, limit)| ==> FirstLive(v, hi, limit)[k].index < hi
  {
    if hi > 0 {
      FirstLiveHasNoneTwice(v, hi - 1, limit);
    }
  }

  lemma FirstMatches(v: View, env: Env, limit: nat)
    requires StructOk(v)
    ensures var ms := FirstLive(v, LogicalLen(v), limit);
            |ms| <= limit && NoneTwice(ms) && MatchesAmong(v, env, "", ms, AmongFirst(v, limit))
  {
    var ms := FirstLive(v, LogicalLen(v), limit);
    forall m: Scored ensures m in ms <==> InMatches(v, env, "", AmongFirst(v, limit), m) {
      FirstLiveMembers(v, env, LogicalLen(v), limit, m);
    }
    FirstLiveMembers(v, env, LogicalLen(v), limit, Scored(0, [], 0));
    FirstLiveHasNoneTwice(v, LogicalLen(v), limit);
  }

  /** The empty query answers with the first `limit` records that are not deleted, as far as they have a path. */
  lemma EmptyQueryAnswers(v: View, env: Env, limit: nat, r: SearchResult)
    requires StructOk(v) && SortLaws(env)
    ensures var rs := Materialize(v, env, FirstLive(v, LogicalLen(v), limit), limit);
            && Descending(ResultPoints(rs)) && |rs| <= limit && |rs| <= |MatchSet(v, env.fold, "")|
            && (r in rs <==> exists i: nat :: AmongFirst(v, limit)(i) && Answers(v, env.fold, "", i, r))
  {
    var ms := FirstLive(v, LogicalLen(v), limit);
    FirstMatches(v, env, limit);
    FewMatches(v, env, "", ms, AmongFirst(v, limit));
    MaterializedAnswers(v, env, "", ms, limit, AmongFirst(v, limit), r);
    if i: nat :| AmongFirst(v, limit)(i) && Answers(v, env.fold, "", i, r) {
      MaterializedIsComplete(v, env, "", ms, limit, AmongFirst(v, limit), i, r);
    }
  }

  /** What the empty query says of a record: its kind alone earns points, and nothing is highlighted. */
  lemma EmptyAnswerIs(v: View, fold: Fold, i: nat, r: SearchResult)
    ensures Answers(v, fold, "", i, r) <==> Depicts(v, i, r) && r.points == (if r.isDirectory then 100 else 0) && r.highlight == []
  {}

  // ----- Queries of every length -----

  /** Whom a query may find: a prefix search proposes only some, and the empty query takes the first. */
  function Sought(v: View, fold: Fold, folded: string, limit: nat): nat -> bool {
    if folded == "" then AmongFirst(v, limit)
    else if CharCount(folded) <= 2 then Proposed(v, fold, folded)
    else All()
  }

  /**
   The search of one index, for every query: each result answers for a record that
   is sought, the best come first, and where the limit leaves room for all matches
   no answer is missing.
   */
  lemma SearchAnswers(v: View, env: Env, query: string, limit: nat, r: SearchResult)
    requires StructOk(v) && SortLaws(env)
    ensures var folded := env.fold(query);
            var rs := SearchIndex(v, env, query, limit);
            var answered := exists i: nat :: Sought(v, env.fold, folded, limit)(i) && Answers(v, env.fold, folded, i, r);
            && Descending(ResultPoints(rs)) && |rs| <= limit && |rs| <= |MatchSet(v, env.fold, folded)|
            && (r in rs ==> answered) && (|MatchSet(v, env.fold, folded)| <= limit ==> (answered ==> r in rs))
  {
    var folded := env.fold(query);
    if folded == "" {
      EmptyQueryAnswers(v, env, limit, r);
    } else if CharCount(folded) <= SHORT_QUERY_CHARS {
      ShortAnswers(v, env, folded, limit, r);
    } else {
      DirectAnswers(v, env, query, limit, r);
      assert forall i: nat :: All()(i);
    }
  }

  /** The matches that the search of this length selects to be shown. */
  function Selection(v: View, env: Env, query: string, limit: nat): seq<Scored> {
    var folded := env.fold(query);
    var base := CollectRange(0, BaseLen(v), ScannedMatcher(v, env, folded));
    var inserted := CollectRange(BaseLen(v), LogicalLen(v), ListedMatcher(v, env, folded));
    Truncate(env.sortScored(
               if folded == "" then FirstLive(v, LogicalLen(v), limit)
               else if CharCount(folded) <= SHORT_QUERY_CHARS then ShortMatches(v, env, folded)
               else TopN(base, 2 * limit) + inserted), limit)
  }

  lemma NothingIsTop(all: seq<nat>)
    ensures KeepsTop([], all, 0)
  {
    forall t: nat ensures CapsCount([], all, 0, t) {}
  }

  /** If all that it selects has a path, a search of any length returns the best scores of the matches it may find. */
  lemma SearchKeepsTop(v: View, env: Env, query: string, limit: nat)
    requires StructOk(v) && SortLaws(env) && AllShow(v, Selection(v, env, query, limit))
    ensures var folded := env.fold(query);
            KeepsTop(ResultPoints(SearchIndex(v, env, query, limit)),
                     AllMatchPoints(v, env.fold, folded, Sought(v, env.fold, folded, limit)), limit)
  {
    var folded := env.fold(query);
    var sought := Sought(v, env.fold, folded, limit);
    var rs := SearchIndex(v, env, query, limit);
    var ms;
    if folded == "" {
      ms := FirstLive(v, LogicalLen(v), limit);
      FirstMatches(v, env, limit);
      MaterializeKeepsTop(v, env, ms, limit);
    } else if CharCount(folded) <= SHORT_QUERY_CHARS {
      ms := ShortMatches(v, env, folded);
      ShortFindsMatches(v, env, folded);
      ShortHasNoneTwice(v, env, folded);
      MaterializeKeepsTop(v, env, ms, limit);
    } else {
      ms := ScannedMatches(v, env, folded);
      ScanFindsMatches(v, env, folded);
      ScanHasNoneTwice(v, env, folded);
      if limit > 0 { DirectSearchKeepsTop(v, env, query, limit); }
    }
    if limit == 0 { NothingIsTop(Points(ms)); }
    MatchesHavePoints(v, env, folded, ms, sought);
    KeepsTopPermutation(ResultPoints(rs), Points(ms), AllMatchPoints(v, env.fold, folded, sought), limit);
  }
}
