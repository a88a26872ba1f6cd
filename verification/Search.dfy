/**
 Scanning an index for a query (index.rs): the full scan, the refinement of a
 cached candidate list, the bounded best-score list and its presentation.
 */
module Search {
  import opened Basics
  import opened Records
  import opened Overlay
  import opened Matching
  import opened TopScores

  /** One scored match: points, highlights and record index. */
  datatype Scored = Scored(points: nat, highlight: seq<HighlightRange>, index: nat)

  datatype SearchResult = SearchResult(
    path: string, name: string, isDirectory: bool, points: nat, highlight: seq<HighlightRange>)

  /**
   What the source takes from its libraries: text folding and the two unstable
   sorts, each a function of the list it is given.
   */
  datatype Env = Env(
    fold: Fold,
    sortScored: seq<Scored> -> seq<Scored>,
    sortResults: seq<SearchResult> -> seq<SearchResult>)

  // ----- Which records a scan visits, and under which name -----

  datatype Visit = Visit(name: string, isDir: bool)

  /** The refinement loop: skip deleted records, then take the logical name. */
  function VisitListed(v: View, i: nat): Option<Visit> {
    if LogicalIsDeleted(v, i) then None
    else match LogicalName(v, i)
      case None => None
      case Some(name) => Some(Visit(name, LogicalIsDir(v, i)))
  }

  function OkName(r: Result<string, EsError>): Option<string> {
    match r case Ok(name) => Some(name) case Err(_) => None
  }

  /** The name the base loop of a full scan reads: the overlay is consulted only if it holds renames. */
  function ScanName(v: View, i: nat): Option<string> {
    if v.delta.renamed != map[] then
      if i in v.delta.renamed then Some(v.delta.renamed[i]) else OkName(BaseName(v.base, i))
    else OkName(BaseName(v.base, i))
  }

  /** The full scan: base rows first, then overlay insertions under their own names. */
  function VisitScanned(v: View, i: nat): Option<Visit> {
    if i < BaseLen(v) then
      if v.base.records[i].IsTombstone() || i in v.delta.deleted then None
      else match ScanName(v, i)
        case None => None
        case Some(name) => Some(Visit(name, v.base.records[i].IsDirectory()))
    else if LogicalIsDeleted(v, i) then None
    else match InsertedAt(v, i)
      case None => None
      case Some(rec) => Some(Visit(rec.name, HasDirectoryFlag(rec.flags)))
  }

  /** Both loops see the same record under the same name, renames included. */
  lemma ScannedIsListed(v: View, i: nat)
    requires StructOk(v)
    ensures VisitScanned(v, i) == VisitListed(v, i)
  {
    assert DeltaRowOk(v, i);
  }

  // ----- Matches -----

  function MatchOf(env: Env, folded: string, i: nat, visit: Option<Visit>): Option<Scored> {
    match visit
    case None => None
    case Some(Visit(name, isDir)) =>
      match ScoreName(env.fold, folded, name, isDir)
      case None => None
      case Some(s) => Some(Scored(s.points, s.highlight, i))
  }

  function OneIfSome<T>(o: Option<T>): seq<T> { match o case None => [] case Some(x) => [x] }

  /** What a scan finds at a record, when it visits it from a list or in index order. */
  function ListedMatcher(v: View, env: Env, folded: string): nat -> Option<Scored> {
    (i: nat) => MatchOf(env, folded, i, VisitListed(v, i))
  }

  function ScannedMatcher(v: View, env: Env, folded: string): nat -> Option<Scored> {
    (i: nat) => MatchOf(env, folded, i, VisitScanned(v, i))
  }

  /** Findings among the listed records, in list order. */
  function Collect(ids: seq<nat>, find: nat -> Option<Scored>): seq<Scored> {
    if ids == [] then [] else Collect(ids[..|ids| - 1], find) + OneIfSome(find(ids[|ids| - 1]))
  }

  /** Findings among the records from `lo` up to `hi`, in index order. */
  function CollectRange(lo: nat, hi: nat, find: nat -> Option<Scored>): seq<Scored> {
    if hi <= lo then [] else CollectRange(lo, hi - 1, find) + OneIfSome(find(hi - 1))
  }

  function ListedMatches(v: View, env: Env, folded: string, ids: seq<nat>): seq<Scored> {
    Collect(ids, ListedMatcher(v, env, folded))
  }

  function ScannedMatches(v: View, env: Env, folded: string): seq<Scored> {
    CollectRange(0, LogicalLen(v), ScannedMatcher(v, env, folded))
  }

  function Matches(v: View, env: Env, folded: string, source: Option<seq<nat>>): seq<Scored> {
    match source
    case Some(ids) => ListedMatches(v, env, folded, ids)
    case None => ScannedMatches(v, env, folded)
  }

  function Indices(ms: seq<Scored>): seq<nat> {
    if ms == [] then [] else Indices(ms[..|ms| - 1]) + [ms[|ms| - 1].index]
  }

  const POINTS: Scored -> nat := (m: Scored) => m.points

  function Points(ms: seq<Scored>): seq<nat> { PointsOf(ms, POINTS) }

  // ----- Ranking and presentation -----

  function InsertTopN(heap: seq<Scored>, entry: Scored, cap: nat): seq<Scored> {
    match SlotFor(Points(heap), entry.points, cap)
    case Append => heap + [entry]
    case Replace(pos) => heap[pos := entry]
    case Drop => heap
  }

  function TopN(ms: seq<Scored>, cap: nat): seq<Scored> {
    if ms == [] then [] else InsertTopN(TopN(ms[..|ms| - 1], cap), ms[|ms| - 1], cap)
  }

  /** A match is shown only if its name and path resolve. */
  function Show(v: View, m: Scored): Option<SearchResult> {
    match LogicalName(v, m.index)
    case None => None
    case Some(name) =>
      match LogicalPath(v, m.index)
      case Err(_) => None
      case Ok(path) =>
        Some(SearchResult(path, name, LogicalIsDir(v, m.index), m.points, m.highlight))
  }

  function ShowAll(v: View, ms: seq<Scored>): seq<SearchResult> {
    if ms == [] then [] else ShowAll(v, ms[..|ms| - 1]) + OneIfSome(Show(v, ms[|ms| - 1]))
  }

  function Materialize(v: View, env: Env, ms: seq<Scored>, limit: nat): seq<SearchResult> {
    ShowAll(v, Truncate(env.sortScored(ms), limit))
  }

  /** Ranked results, and all matching indices when they fit the caller's budget. */
  datatype CandidateSearch = CandidateSearch(results: seq<SearchResult>, candidateIds: Option<seq<nat>>)

  function SearchCandidates(v: View, env: Env, query: string, source: Option<seq<nat>>, limit: nat, budget: nat): CandidateSearch {
    var folded := env.fold(query);
    if limit == 0 || folded == "" then CandidateSearch([], None)
    else
      var ms := Matches(v, env, folded, source);
      CandidateSearch(
        Materialize(v, env, TopN(ms, 2 * limit), limit),
        if |ms| <= budget then Some(Indices(ms)) else None)
  }

  /** The direct search of three or more characters: overlay matches bypass the bound. */
  function SearchDirect(v: View, env: Env, query: string, limit: nat): seq<SearchResult> {
    var folded := env.fold(query);
    if limit == 0 then []
    else
      var base := CollectRange(0, BaseLen(v), ScannedMatcher(v, env, folded));
      var inserted := CollectRange(BaseLen(v), LogicalLen(v), ListedMatcher(v, env, folded));
      Materialize(v, env, TopN(base, 2 * limit) + inserted, limit)
  }

  // ----- Refining a complete candidate list replays the full scan -----

  lemma IndicesSnoc(ms: seq<Scored>, m: Option<Scored>)
    ensures Indices(ms + OneIfSome(m)) ==
            match m { case None => Indices(ms) case Some(s) => Indices(ms) + [s.index] }
  {
    match m {
      case None => assert ms + [] == ms;
      case Some(s) => assert (ms + [s])[..|ms|] == ms;
    }
  }

  /** Collecting from what a broader finder found is collecting from the whole range. */
  lemma {:induction false} CollectReplays(hi: nat, broad: nat -> Option<Scored>, narrow: nat -> Option<Scored>)
    requires forall i: nat :: broad(i).Some? ==> broad(i).value.index == i
    requires forall i: nat :: narrow(i).Some? ==> broad(i).Some?
    ensures Collect(Indices(CollectRange(0, hi, broad)), narrow) == CollectRange(0, hi, narrow)
  {
    if hi > 0 {
      CollectReplays(hi - 1, broad, narrow);
      var before := CollectRange(0, hi - 1, broad);
      IndicesSnoc(before, broad(hi - 1));
      if broad(hi - 1).Some? {
        assert (Indices(before) + [hi - 1])[..|Indices(before)|] == Indices(before);
      }
    }
  }

  lemma {:induction false} CollectRangeAgrees(lo: nat, hi: nat, f: nat -> Option<Scored>, g: nat -> Option<Scored>)
    requires forall i: nat :: f(i) == g(i)
    ensures CollectRange(lo, hi, f) == CollectRange(lo, hi, g)
    decreases hi
  {
    if lo < hi {
      CollectRangeAgrees(lo, hi - 1, f, g);
    }
  }

  lemma {:induction false} CollectRangeSplit(lo: nat, mid: nat, hi: nat, f: nat -> Option<Scored>)
    requires lo <= mid <= hi
    ensures CollectRange(lo, hi, f) == CollectRange(lo, mid, f) + CollectRange(mid, hi, f)
    decreases hi
  {
    if mid < hi {
      CollectRangeSplit(lo, mid, hi - 1, f);
    }
  }

  /** The full scan is the listed scan over all records in order. */
  lemma ScanIsListed(v: View, env: Env, folded: string)
    requires StructOk(v)
    ensures ScannedMatches(v, env, folded) == CollectRange(0, LogicalLen(v), ListedMatcher(v, env, folded))
  {
    forall i: nat ensures ScannedMatcher(v, env, folded)(i) == ListedMatcher(v, env, folded)(i) {
      ScannedIsListed(v, i);
    }
    CollectRangeAgrees(0, LogicalLen(v), ScannedMatcher(v, env, folded), ListedMatcher(v, env, folded));
  }

  /** Scanning the matches of a broader query finds the matches of the narrower one, in the same order. */
  lemma RefinementReplaysScan(v: View, env: Env, broad: string, narrow: string)
    requires StructOk(v) && Narrows(env.fold, broad, narrow)
    ensures ListedMatches(v, env, env.fold(narrow), Indices(ScannedMatches(v, env, env.fold(broad)))) ==
            ScannedMatches(v, env, env.fold(narrow))
  {
    ScanIsListed(v, env, env.fold(broad));
    ScanIsListed(v, env, env.fold(narrow));
    CollectReplays(LogicalLen(v), ListedMatcher(v, env, env.fold(broad)), ListedMatcher(v, env, env.fold(narrow)));
  }

  /** With a complete candidate list of a query it narrows, a refinement equals the full scan. */
  lemma RefinementIsFullScan(v: View, env: Env, broad: string, narrow: string, limit: nat, budget: nat)
    requires StructOk(v) && Narrows(env.fold, broad, narrow)
    ensures SearchCandidates(v, env, narrow, Some(Indices(ScannedMatches(v, env, env.fold(broad)))), limit, budget)
            == SearchCandidates(v, env, narrow, None, limit, budget)
  {
    RefinementReplaysScan(v, env, broad, narrow);
  }
}
