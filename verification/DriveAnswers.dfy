/** What the searches across drives say: each result answers for a record of some drive, best first. */
module DriveAnswers {
  import opened Basics
  import opened Overlay
  import opened Matching
  import opened TopScores
  import opened Search
  import opened Ranking
  import opened ShortQueries
  import opened Results
  import opened Drives
  import opened DriveRanking

  function TotalMatches(indexes: seq<DriveIndex>, fold: Fold, folded: string): nat {
    if indexes == [] then 0
    else TotalMatches(indexes[..|indexes| - 1], fold, folded) + |MatchSet(indexes[|indexes| - 1].view, fold, folded)|
  }

  /** The result shows a match on some drive. */
  ghost predicate AnsweredOn(indexes: seq<DriveIndex>, fold: Fold, folded: string, r: SearchResult) {
    exists d: nat, i: nat :: d < |indexes| && Answers(indexes[d].view, fold, folded, i, r)
  }

  /** And one that a query of this length may find. */
  ghost predicate SoughtOn(indexes: seq<DriveIndex>, fold: Fold, folded: string, limit: nat, r: SearchResult) {
    exists d: nat, i: nat ::
      d < |indexes| && Sought(indexes[d].view, fold, folded, limit)(i) && Answers(indexes[d].view, fold, folded, i, r)
  }

  // ----- Joining and ranking -----

  lemma {:induction false} JoinedMembers(lists: seq<seq<SearchResult>>, r: SearchResult)
    ensures r in Joined(lists) <==> exists d: nat :: d < |lists| && r in lists[d]
  {
    if lists != [] {
      var last := |lists| - 1;
      JoinedMembers(lists[..last], r);
      assert forall d: nat :: d < last ==> lists[..last][d] == lists[d];
    }
  }

  lemma {:induction false} JoinedIsShort(indexes: seq<DriveIndex>, search: View -> seq<SearchResult>, fold: Fold, folded: string)
    requires forall d :: 0 <= d < |indexes| ==> |search(indexes[d].view)| <= |MatchSet(indexes[d].view, fold, folded)|
    ensures |Joined(Lists(indexes, search))| <= TotalMatches(indexes, fold, folded)
  {
    if indexes != [] {
      JoinedIsShort(indexes[..|indexes| - 1], search, fold, folded);
      ListsInit(indexes, search);
    }
  }

  lemma {:induction false} PartOfTotal(indexes: seq<DriveIndex>, fold: Fold, folded: string, d: nat)
    requires d < |indexes|
    ensures |MatchSet(indexes[d].view, fold, folded)| <= TotalMatches(indexes, fold, folded)
  {
    if d < |indexes| - 1 {
      PartOfTotal(indexes[..|indexes| - 1], fold, folded, d);
    }
  }

  // ----- Both searches -----

  /** The search that collects candidates answers with matches on the drives; with room for all it misses none. */
  lemma AllAnswers(m: Manager, env: Env, query: string, limit: nat, budget: nat, r: SearchResult)
    requires AllStructOk(m.indexes) && SortLaws(env) && env.fold(query) != ""
    ensures var rs := SearchAll(m, env, query, None, limit, budget).results;
            && Descending(ResultPoints(rs)) && |rs| <= limit
            && (r in rs ==> AnsweredOn(m.indexes, env.fold, env.fold(query), r))
            && (TotalMatches(m.indexes, env.fold, env.fold(query)) <= limit ==>
                  (AnsweredOn(m.indexes, env.fold, env.fold(query), r) ==> r in rs))
  {
    var folded, lists := env.fold(query), Lists(m.indexes, ByCandidates(env, query, limit));
    ScanJoins(m.indexes, env, query, limit, budget);
    forall d: nat | d < |lists|
      ensures |lists[d]| <= |MatchSet(m.indexes[d].view, env.fold, folded)|
      ensures r in lists[d] ==> AnsweredOn(m.indexes, env.fold, folded, r)
      ensures |MatchSet(m.indexes[d].view, env.fold, folded)| <= TotalMatches(m.indexes, env.fold, folded)
      ensures |MatchSet(m.indexes[d].view, env.fold, folded)| <= limit ==>
                forall i: nat :: Answers(m.indexes[d].view, env.fold, folded, i, r) ==> r in lists[d]
    {
      CandidateAnswers(m.indexes[d].view, env, query, None, limit, 0, r);
      PartOfTotal(m.indexes, env.fold, folded, d);
    }
    JoinedMembers(lists, r);
    JoinedIsShort(m.indexes, ByCandidates(env, query, limit), env.fold, folded);
    RankedSelects(env, Joined(lists), limit, r);
  }

  /** So does the search without candidates, for queries of every length. */
  lemma AllDirectAnswers(m: Manager, env: Env, query: string, limit: nat, r: SearchResult)
    requires AllStructOk(m.indexes) && SortLaws(env)
    ensures var rs := SearchAllDirect(m, env, query, limit);
            && Descending(ResultPoints(rs)) && |rs| <= limit
            && (r in rs ==> SoughtOn(m.indexes, env.fold, env.fold(query), limit, r))
            && (TotalMatches(m.indexes, env.fold, env.fold(query)) <= limit ==>
                  (SoughtOn(m.indexes, env.fold, env.fold(query), limit, r) ==> r in rs))
  {
    var folded, lists := env.fold(query), Lists(m.indexes, Directly(env, query, limit));
    DirectJoins(m.indexes, env, query, limit);
    forall d: nat | d < |lists|
      ensures |lists[d]| <= |MatchSet(m.indexes[d].view, env.fold, folded)|
      ensures r in lists[d] ==> SoughtOn(m.indexes, env.fold, folded, limit, r)
      ensures |MatchSet(m.indexes[d].view, env.fold, folded)| <= TotalMatches(m.indexes, env.fold, folded)
      ensures |MatchSet(m.indexes[d].view, env.fold, folded)| <= limit ==>
                forall i: nat | Sought(m.indexes[d].view, env.fold, folded, limit)(i) ::
                  Answers(m.indexes[d].view, env.fold, folded, i, r) ==> r in lists[d]
    {
      SearchAnswers(m.indexes[d].view, env, query, limit, r);
      PartOfTotal(m.indexes, env.fold, folded, d);
    }
    JoinedMembers(lists, r);
    JoinedIsShort(m.indexes, Directly(env, query, limit), env.fold, folded);
    RankedSelects(env, Joined(lists), limit, r);
  }

  /** The points of all matches on the drives that a query of this length may find. */
  function PointsSought(indexes: seq<DriveIndex>, fold: Fold, folded: string, limit: nat): seq<nat> {
    if indexes == [] then []
    else
      var v := indexes[|indexes| - 1].view;
      PointsSought(indexes[..|indexes| - 1], fold, folded, limit) +
      AllMatchPoints(v, fold, folded, Sought(v, fold, folded, limit))
  }

  function StreamsSought(indexes: seq<DriveIndex>, fold: Fold, folded: string, limit: nat): (alls: seq<seq<nat>>)
    ensures |alls| == |indexes|
    ensures forall d :: 0 <= d < |indexes| ==>
              alls[d] == AllMatchPoints(indexes[d].view, fold, folded, Sought(indexes[d].view, fold, folded, limit))
  {
    seq(|indexes|, d requires 0 <= d < |indexes| =>
      AllMatchPoints(indexes[d].view, fold, folded, Sought(indexes[d].view, fold, folded, limit)))
  }

  lemma {:induction false} SoughtStreamsJoin(indexes: seq<DriveIndex>, fold: Fold, folded: string, limit: nat)
    ensures JoinedPoints(StreamsSought(indexes, fold, folded, limit)) == PointsSought(indexes, fold, folded, limit)
  {
    if indexes != [] {
      var init := indexes[..|indexes| - 1];
      SoughtStreamsJoin(init, fold, folded, limit);
      assert StreamsSought(indexes, fold, folded, limit)[..|init|] == StreamsSought(init, fold, folded, limit);
    }
  }

  /** Whatever each drive selects has a path. */
  ghost predicate SelectionsShow(indexes: seq<DriveIndex>, env: Env, query: string, limit: nat) {
    forall d :: 0 <= d < |indexes| ==> AllShow(indexes[d].view, Selection(indexes[d].view, env, query, limit))
  }

  /** The search without candidates returns the best scores of all matches that it may find, for queries of every length. */
  lemma AllDirectKeepsTop(m: Manager, env: Env, query: string, limit: nat)
    requires AllStructOk(m.indexes) && SortLaws(env) && SelectionsShow(m.indexes, env, query, limit)
    ensures KeepsTop(ResultPoints(SearchAllDirect(m, env, query, limit)),
                     PointsSought(m.indexes, env.fold, env.fold(query), limit), limit)
  {
    var lists := Lists(m.indexes, Directly(env, query, limit));
    var alls := StreamsSought(m.indexes, env.fold, env.fold(query), limit);
    forall d | 0 <= d < |lists| ensures KeepsTop(ResultPoints(lists[d]), alls[d], limit) {
      SearchKeepsTop(m.indexes[d].view, env, query, limit);
    }
    MergeKeepsTop(env, lists, alls, limit);
    DirectJoins(m.indexes, env, query, limit);
    SoughtStreamsJoin(m.indexes, env.fold, env.fold(query), limit);
  }

  // ----- The candidates that are kept -----

  lemma {:induction false} ListCovers(s: seq<nat>, pool: set<nat>)
    requires forall x :: x in pool ==> x in s
    ensures |pool| <= |s|
    decreases |s|
  {
    if s == [] {
      assert pool == {};
    } else {
      var last := s[|s| - 1];
      ListCovers(s[..|s| - 1], pool - {last});
    }
  }

  /** A full scan meets each match once. */
  lemma ScanCountsMatches(v: View, env: Env, folded: string)
    requires StructOk(v)
    ensures |ScannedMatches(v, env, folded)| == |MatchSet(v, env.fold, folded)|
  {
    var ms := ScannedMatches(v, env, folded);
    ScanFindsMatches(v, env, folded);
    ScanHasNoneTwice(v, env, folded);
    FewMatches(v, env, folded, ms, All());
    forall i | i in MatchSet(v, env.fold, folded) ensures i in IndexSeq(ms) {
      var m := ListedMatcher(v, env, folded)(i).value;
      assert InMatches(v, env, folded, All(), m);
      var k :| 0 <= k < |ms| && ms[k] == m;
      assert IndexSeq(ms)[k] == i;
    }
    ListCovers(IndexSeq(ms), MatchSet(v, env.fold, folded));
  }

  lemma {:induction false} IndicesLength(ms: seq<Scored>)
    ensures Indices(ms) == IndexSeq(ms)
  {
    if ms != [] {
      IndicesLength(ms[..|ms| - 1]);
    }
  }

  lemma CandidatesAre(v: View, env: Env, query: string, limit: nat, budget: nat)
    requires limit > 0 && env.fold(query) != ""
    ensures var ms := ScannedMatches(v, env, env.fold(query));
            SearchCandidates(v, env, query, None, limit, budget).candidateIds ==
            if |ms| <= budget then Some(Indices(ms)) else None
  {}

  lemma IndicesCount(ms: seq<Scored>)
    ensures |Indices(ms)| == |ms|
  {
    IndicesLength(ms);
  }

  lemma DriveKeepsIffItFits(v: View, env: Env, query: string, limit: nat, budget: nat)
    requires StructOk(v) && limit > 0 && env.fold(query) != ""
    ensures var ids := SearchCandidates(v, env, query, None, limit, budget).candidateIds;
            var count := |MatchSet(v, env.fold, env.fold(query))|;
            (ids.Some? <==> count <= budget) && (ids.Some? ==> |ids.value| == count)
  {
    CandidatesAre(v, env, query, limit, budget);
    ScanCountsMatches(v, env, env.fold(query));
    IndicesCount(ScannedMatches(v, env, env.fold(query)));
  }

  /** The candidates of a search over drives survive if and only if they all fit the budget. */
  lemma {:induction false} CandidatesKeptIffTheyFit(indexes: seq<DriveIndex>, env: Env, query: string, limit: nat, budget: nat)
    requires AllStructOk(indexes) && limit > 0 && env.fold(query) != ""
    ensures var scan := ScanDrives(indexes, env, query, None, limit, budget);
            var total := TotalMatches(indexes, env.fold, env.fold(query));
            (scan.drives.Some? <==> total <= budget) && (total <= budget ==> scan.remaining == budget - total)
  {
    if indexes != [] {
      CandidatesKeptIffTheyFit(indexes[..|indexes| - 1], env, query, limit, budget);
      DriveKeepsIffItFits(indexes[|indexes| - 1].view, env, query, limit,
                          ScanDrives(indexes[..|indexes| - 1], env, query, None, limit, budget).remaining);
    }
  }

  /** Without a query, or without room for results, nothing is found and no candidates are kept. */
  lemma {:induction false} NothingToAsk(indexes: seq<DriveIndex>, env: Env, query: string, limit: nat, budget: nat)
    requires (limit == 0 || env.fold(query) == "") && indexes != []
    ensures var scan := ScanDrives(indexes, env, query, None, limit, budget);
            scan.results == [] && scan.drives.None? && scan.remaining == budget
    decreases |indexes|
  {
    if |indexes| > 1 {
      NothingToAsk(indexes[..|indexes| - 1], env, query, limit, budget);
    }
  }

  /** What survives is, for each drive, the ascending list of the records that match. */
  lemma KeptCandidatesAreMatches(indexes: seq<DriveIndex>, env: Env, query: string, limit: nat, budget: nat, d: nat)
    requires AllStructOk(indexes) && limit > 0 && env.fold(query) != "" && d < |indexes|
    requires TotalMatches(indexes, env.fold, env.fold(query)) <= budget
    ensures var drives := ScanDrives(indexes, env, query, None, limit, budget).drives;
            && drives.Some? && |drives.value| == |indexes| && drives.value[d].drive == indexes[d].letter
            && Ascending(drives.value[d].ids)
            && forall i: nat :: i in drives.value[d].ids <==> IsMatch(indexes[d].view, env.fold, env.fold(query), i)
  {
    CandidatesKeptIffTheyFit(indexes, env, query, limit, budget);
    ScanCollectsCompleteSets(indexes, env, query, limit, budget);
    CompleteSetsAt(indexes, env, env.fold(query), d);
    ScanIndices(indexes[d].view, env, env.fold(query));
  }

  function Finds(find: nat -> Option<Scored>): nat -> bool { (i: nat) => find(i).Some? }

  lemma {:induction false} RangeIsSelect(find: nat -> Option<Scored>, hi: nat)
    requires FindsAt(find)
    ensures Indices(CollectRange(0, hi, find)) == Select(0, hi, Finds(find))
  {
    if hi > 0 {
      RangeIsSelect(find, hi - 1);
      IndicesSnoc(CollectRange(0, hi - 1, find), find(hi - 1));
      SelectSnoc(0, hi - 1, Finds(find));
    }
  }

  lemma ScanIndices(v: View, env: Env, folded: string)
    requires StructOk(v)
    ensures Ascending(Indices(ScannedMatches(v, env, folded)))
    ensures forall i: nat :: i in Indices(ScannedMatches(v, env, folded)) <==> IsMatch(v, env.fold, folded, i)
  {
    ScanIsListed(v, env, folded);
    RangeIsSelect(ListedMatcher(v, env, folded), LogicalLen(v));
  }
}
