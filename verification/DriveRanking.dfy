/**
 The two searches across drives, with and without candidate lists, return the
 best `limit` scores of all matches on all drives, and so the same scores.
 */
module DriveRanking {
  import opened Basics
  import opened Overlay
  import opened TopScores
  import opened Search
  import opened Ranking
  import opened Matching
  import opened ShortQueries
  import opened Drives

  /** The scores of all matches on all drives. */
  function PointsOnDrives(indexes: seq<DriveIndex>, env: Env, folded: string): seq<nat> {
    if indexes == [] then []
    else
      PointsOnDrives(indexes[..|indexes| - 1], env, folded) +
      Points(ScannedMatches(indexes[|indexes| - 1].view, env, folded))
  }

  // ----- Both searches merge one list for each drive -----

  function Lists(indexes: seq<DriveIndex>, search: View -> seq<SearchResult>): (lists: seq<seq<SearchResult>>)
    ensures |lists| == |indexes| && forall d :: 0 <= d < |indexes| ==> lists[d] == search(indexes[d].view)
  {
    seq(|indexes|, d requires 0 <= d < |indexes| => search(indexes[d].view))
  }

  function Streams(indexes: seq<DriveIndex>, env: Env, folded: string): (alls: seq<seq<nat>>)
    ensures |alls| == |indexes|
    ensures forall d :: 0 <= d < |indexes| ==> alls[d] == Points(ScannedMatches(indexes[d].view, env, folded))
  {
    seq(|indexes|, d requires 0 <= d < |indexes| => Points(ScannedMatches(indexes[d].view, env, folded)))
  }

  function ByCandidates(env: Env, query: string, limit: nat): View -> seq<SearchResult> {
    (v: View) => SearchCandidates(v, env, query, None, limit, 0).results
  }

  function Directly(env: Env, query: string, limit: nat): View -> seq<SearchResult> {
    (v: View) => SearchIndex(v, env, query, limit)
  }

  lemma {:induction false} StreamsJoin(indexes: seq<DriveIndex>, env: Env, folded: string)
    ensures JoinedPoints(Streams(indexes, env, folded)) == PointsOnDrives(indexes, env, folded)
  {
    if indexes != [] {
      var init := indexes[..|indexes| - 1];
      StreamsJoin(init, env, folded);
      assert Streams(indexes, env, folded)[..|init|] == Streams(init, env, folded);
    }
  }

  lemma ListsInit(indexes: seq<DriveIndex>, search: View -> seq<SearchResult>)
    requires indexes != []
    ensures Lists(indexes, search)[..|indexes| - 1] == Lists(indexes[..|indexes| - 1], search)
  {}

  /** The budget for candidates has no influence on the results. */
  lemma {:induction false} ScanJoins(indexes: seq<DriveIndex>, env: Env, query: string, limit: nat, budget: nat)
    ensures ScanDrives(indexes, env, query, None, limit, budget).results ==
            Joined(Lists(indexes, ByCandidates(env, query, limit)))
  {
    if indexes != [] {
      ScanJoins(indexes[..|indexes| - 1], env, query, limit, budget);
      ListsInit(indexes, ByCandidates(env, query, limit));
    }
  }

  lemma {:induction false} DirectJoins(indexes: seq<DriveIndex>, env: Env, query: string, limit: nat)
    ensures DirectResults(indexes, env, query, limit) == Joined(Lists(indexes, Directly(env, query, limit)))
  {
    if indexes != [] {
      DirectJoins(indexes[..|indexes| - 1], env, query, limit);
      ListsInit(indexes, Directly(env, query, limit));
    }
  }

  // ----- Selections whose paths resolve -----

  /** The matches of one drive that a candidate scan selects. */
  function CandidateSelection(v: View, env: Env, query: string, limit: nat): seq<Scored> {
    Truncate(env.sortScored(TopN(ScannedMatches(v, env, env.fold(query)), 2 * limit)), limit)
  }

  /** The matches of one drive that a direct search selects. */
  function DirectSelection(v: View, env: Env, query: string, limit: nat): seq<Scored> {
    var folded := env.fold(query);
    var base := CollectRange(0, BaseLen(v), ScannedMatcher(v, env, folded));
    var inserted := CollectRange(BaseLen(v), LogicalLen(v), ListedMatcher(v, env, folded));
    Truncate(env.sortScored(TopN(base, 2 * limit) + inserted), limit)
  }

  ghost predicate CandidatesShow(indexes: seq<DriveIndex>, env: Env, query: string, limit: nat) {
    forall d :: 0 <= d < |indexes| ==> AllShow(indexes[d].view, CandidateSelection(indexes[d].view, env, query, limit))
  }

  ghost predicate DirectShow(indexes: seq<DriveIndex>, env: Env, query: string, limit: nat) {
    forall d :: 0 <= d < |indexes| ==> AllShow(indexes[d].view, DirectSelection(indexes[d].view, env, query, limit))
  }

  // ----- The best scores over all drives -----

  /** Three characters or more: shorter queries look up prefixes instead of scanning. */
  predicate LongQuery(env: Env, query: string) { CharCount(env.fold(query)) > SHORT_QUERY_CHARS }

  /** The search that collects candidates returns the best scores of all matches on all drives. */
  lemma SearchAllKeepsTop(m: Manager, env: Env, query: string, limit: nat, budget: nat)
    requires SortLaws(env) && limit > 0 && env.fold(query) != ""
    requires CandidatesShow(m.indexes, env, query, limit)
    ensures KeepsTop(ResultPoints(SearchAll(m, env, query, None, limit, budget).results),
                     PointsOnDrives(m.indexes, env, env.fold(query)), limit)
  {
    var lists := Lists(m.indexes, ByCandidates(env, query, limit));
    var alls := Streams(m.indexes, env, env.fold(query));
    forall d | 0 <= d < |lists| ensures KeepsTop(ResultPoints(lists[d]), alls[d], limit) {
      CandidateScanKeepsTop(m.indexes[d].view, env, query, None, limit, 0);
    }
    MergeKeepsTop(env, lists, alls, limit);
    ScanJoins(m.indexes, env, query, limit, budget);
    StreamsJoin(m.indexes, env, env.fold(query));
  }

  /** So does the search without candidates. */
  lemma SearchAllDirectKeepsTop(m: Manager, env: Env, query: string, limit: nat)
    requires SortLaws(env) && limit > 0 && AllStructOk(m.indexes) && LongQuery(env, query)
    requires DirectShow(m.indexes, env, query, limit)
    ensures KeepsTop(ResultPoints(SearchAllDirect(m, env, query, limit)),
                     PointsOnDrives(m.indexes, env, env.fold(query)), limit)
  {
    var lists := Lists(m.indexes, Directly(env, query, limit));
    var alls := Streams(m.indexes, env, env.fold(query));
    forall d | 0 <= d < |lists| ensures KeepsTop(ResultPoints(lists[d]), alls[d], limit) {
      DirectSearchKeepsTop(m.indexes[d].view, env, query, limit);
    }
    MergeKeepsTop(env, lists, alls, limit);
    DirectJoins(m.indexes, env, query, limit);
    StreamsJoin(m.indexes, env, env.fold(query));
  }

  /** The two routes return the same scores, whatever the sorts do with ties. */
  lemma RoutesAgree(m: Manager, env: Env, query: string, limit: nat, budget: nat)
    requires SortLaws(env) && limit > 0 && LongQuery(env, query) && AllStructOk(m.indexes)
    requires CandidatesShow(m.indexes, env, query, limit) && DirectShow(m.indexes, env, query, limit)
    ensures multiset(ResultPoints(SearchAll(m, env, query, None, limit, budget).results)) ==
            multiset(ResultPoints(SearchAllDirect(m, env, query, limit)))
  {
    SearchAllKeepsTop(m, env, query, limit, budget);
    SearchAllDirectKeepsTop(m, env, query, limit);
    TopScoresUnique(ResultPoints(SearchAll(m, env, query, None, limit, budget).results),
                    ResultPoints(SearchAllDirect(m, env, query, limit)),
                    PointsOnDrives(m.indexes, env, env.fold(query)), limit);
  }

  // ----- Indexes in which every record has a path -----

  /** No live record lies on or below a cycle. */
  ghost predicate EveryPathResolves(v: View) { forall i: nat :: PathResolves(v, i) }

  ghost predicate PathResolves(v: View, i: nat) {
    i < LogicalLen(v) && !LogicalIsDeleted(v, i) ==> LogicalPath(v, i).Ok?
  }

  /** A list of matches found at records that a reader can see. */
  ghost predicate FromLive(v: View, ms: seq<Scored>) { forall m :: m in ms ==> AtLive(v, m) }

  ghost predicate AtLive(v: View, m: Scored) { m.index < LogicalLen(v) && !LogicalIsDeleted(v, m.index) }

  lemma {:induction false} ListedIsLive(v: View, env: Env, folded: string, lo: nat, hi: nat)
    requires hi <= LogicalLen(v)
    ensures FromLive(v, CollectRange(lo, hi, ListedMatcher(v, env, folded)))
  {
    if lo < hi {
      ListedIsLive(v, env, folded, lo, hi - 1);
    }
  }

  lemma ScannedIsLive(v: View, env: Env, folded: string, hi: nat)
    requires StructOk(v) && hi <= LogicalLen(v)
    ensures FromLive(v, CollectRange(0, hi, ScannedMatcher(v, env, folded)))
  {
    forall i: nat ensures ScannedMatcher(v, env, folded)(i) == ListedMatcher(v, env, folded)(i) {
      ScannedIsListed(v, i);
    }
    CollectRangeAgrees(0, hi, ScannedMatcher(v, env, folded), ListedMatcher(v, env, folded));
    ListedIsLive(v, env, folded, 0, hi);
  }

  /** Matches at live records can all be shown, in whatever order and number. */
  lemma LiveMatchesShow(v: View, env: Env, ms: seq<Scored>, limit: nat)
    requires StructOk(v) && EveryPathResolves(v) && SortLaws(env) && FromLive(v, ms)
    ensures AllShow(v, Truncate(env.sortScored(ms), limit))
  {
    var sorted := env.sortScored(ms);
    assert SortsScored(env, ms);
    forall k | 0 <= k < |Truncate(sorted, limit)| ensures Show(v, Truncate(sorted, limit)[k]).Some? {
      var m := sorted[k];
      assert m in multiset(sorted) && m in multiset(ms);
      assert AtLive(v, m) && PathResolves(v, m.index);
      NamePresent(v, m.index);
    }
  }

  lemma ResolvingSelectionsShow(v: View, env: Env, query: string, limit: nat)
    requires StructOk(v) && EveryPathResolves(v) && SortLaws(env)
    ensures AllShow(v, CandidateSelection(v, env, query, limit)) && AllShow(v, DirectSelection(v, env, query, limit))
  {
    var folded := env.fold(query);
    var all := ScannedMatches(v, env, folded);
    var base := CollectRange(0, BaseLen(v), ScannedMatcher(v, env, folded));
    var inserted := CollectRange(BaseLen(v), LogicalLen(v), ListedMatcher(v, env, folded));
    ScannedIsLive(v, env, folded, LogicalLen(v));
    ScannedIsLive(v, env, folded, BaseLen(v));
    ListedIsLive(v, env, folded, BaseLen(v), LogicalLen(v));
    TopNSelects(all, 2 * limit);
    TopNSelects(base, 2 * limit);
    LiveMatchesShow(v, env, TopN(all, 2 * limit), limit);
    LiveMatchesShow(v, env, TopN(base, 2 * limit) + inserted, limit);
  }

  /** Where every record has a path, both routes return the best scores of all matches on all drives. */
  lemma BothRoutesKeepTop(m: Manager, env: Env, query: string, limit: nat, budget: nat)
    requires SortLaws(env) && limit > 0 && LongQuery(env, query) && AllStructOk(m.indexes)
    requires forall d :: 0 <= d < |m.indexes| ==> EveryPathResolves(m.indexes[d].view)
    ensures var all := PointsOnDrives(m.indexes, env, env.fold(query));
            && KeepsTop(ResultPoints(SearchAll(m, env, query, None, limit, budget).results), all, limit)
            && KeepsTop(ResultPoints(SearchAllDirect(m, env, query, limit)), all, limit)
  {
    forall d | 0 <= d < |m.indexes|
      ensures AllShow(m.indexes[d].view, CandidateSelection(m.indexes[d].view, env, query, limit))
      ensures AllShow(m.indexes[d].view, DirectSelection(m.indexes[d].view, env, query, limit))
    {
      ResolvingSelectionsShow(m.indexes[d].view, env, query, limit);
    }
    SearchAllKeepsTop(m, env, query, limit, budget);
    SearchAllDirectKeepsTop(m, env, query, limit);
  }
}
