/**
 Exactly when reusing a cached prefix is right. The source folds text with
 Unicode lower-casing, which turns a capital sigma into a final sigma at the end
 of a word only; typing one more letter can therefore lose matches.
 */
module SessionLimits {
  import opened Basics
  import opened Records
  import opened Overlay
  import opened Refinement
  import opened Builder
  import opened Matching
  import opened TopScores
  import opened Search
  import opened Ranking
  import opened Drives
  import opened Session

  /** Type `prefix`, then `query`, over an empty cache: the second answer. */
  function SecondAnswer(m: Manager, env: Env, prefix: string, query: string, limit: nat): seq<SearchResult> {
    Query(Query(EMPTY_SESSION, m, env, prefix, limit, false).0, m, env, query, limit, false).1
  }

  ghost predicate AnswersAlike(m: Manager, env: Env, prefix: string, query: string, limit: nat) {
    SecondAnswer(m, env, prefix, query, limit) == Uncached(m, env, query, limit)
  }

  /** Typing on from `prefix` to `query` never changes an answer, whatever is indexed. */
  ghost predicate AlwaysAlike(env: Env, prefix: string, query: string) {
    forall m: Manager, limit: nat :: ManagerOk(m) ==> AnswersAlike(m, env, prefix, query, limit)
  }

  // ----- Safe when the folded query contains the folded prefix -----

  /** A query over an empty cache searches everything and remembers what it found, if that is complete. */
  lemma FirstQuery(m: Manager, env: Env, prefix: string, limit: nat)
    requires CharCount(prefix) >= MIN_CACHED_QUERY_CHARS
    ensures var out := SearchAll(m, env, prefix, None, limit, MAX_CACHED_CANDIDATES);
            Query(EMPTY_SESSION, m, env, prefix, limit, false).0 ==
            if out.drives.Some?
            then Push(EMPTY_SESSION.(lastMode := FullScan), prefix, m.generation, out.drives.value)
            else EMPTY_SESSION.(lastMode := FullScan)
  {
    assert Refresh(EMPTY_SESSION, m.generation) == EMPTY_SESSION;
    assert PlanFor(EMPTY_SESSION, m.generation, prefix) == Plan(FullScan, None);
  }

  /** At most one snapshot, of this query. */
  predicate Remembers(s: SessionState, prefix: string) {
    s.snapshots == [] || (|s.snapshots| == 1 && s.snapshots[0].query == prefix)
  }

  lemma FirstSnapshot(s: SessionState, prefix: string, generation: nat, drives: seq<DriveCandidateSet>)
    requires s.snapshots == []
    ensures Remembers(Push(s, prefix, generation, drives), prefix)
  {}

  lemma ReusesTheFirst(s: SessionState, generation: nat, env: Env, prefix: string, query: string)
    requires Remembers(s, prefix) && Contains(env.fold(query), env.fold(prefix))
    ensures ReusesContained(s, generation, env, query)
  {}

  lemma ReuseIsSafe(m: Manager, env: Env, prefix: string, query: string, limit: nat)
    requires ManagerOk(m) && CharCount(prefix) >= MIN_CACHED_QUERY_CHARS && CharCount(query) >= MIN_CACHED_QUERY_CHARS
    requires FoldLaws(env.fold) && Contains(env.fold(query), env.fold(prefix))
    ensures AnswersAlike(m, env, prefix, query, limit)
  {
    ContainsItself(env.fold(prefix));
    ReusesTheFirst(EMPTY_SESSION, m.generation, env, prefix, prefix);
    QueryIsCoherent(EMPTY_SESSION, m, env, prefix, limit, false);
    FirstQuery(m, env, prefix, limit);
    var first := Query(EMPTY_SESSION, m, env, prefix, limit, false).0;
    var out := SearchAll(m, env, prefix, None, limit, MAX_CACHED_CANDIDATES);
    if out.drives.Some? {
      FirstSnapshot(EMPTY_SESSION.(lastMode := FullScan), prefix, m.generation, out.drives.value);
    }
    AnswersFrom(first, m, env, prefix, query, limit);
  }

  lemma AnswersFrom(s: SessionState, m: Manager, env: Env, prefix: string, query: string, limit: nat)
    requires ManagerOk(m) && FoldLaws(env.fold) && Coherent(s, m, env) && Remembers(s, prefix)
    requires CharCount(query) >= MIN_CACHED_QUERY_CHARS && Contains(env.fold(query), env.fold(prefix))
    ensures Query(s, m, env, query, limit, false).1 == Uncached(m, env, query, limit)
  {
    ReusesTheFirst(s, m.generation, env, prefix, query);
    QueryIsCoherent(s, m, env, query, limit, false);
  }

  // ----- One file that tells the difference -----

  function OneFile(name: string): seq<Addition> { [Addition(FileRef(0, 5), PARENT_NONE, name, 0, 0)] }

  function OneDrive(name: string): Manager {
    Manager([DriveIndex('C', BuiltView(OneFile(name)), UsnCursor(0, 0), 0)], 1)
  }

  lemma OneFileOk(name: string)
    ensures var v := BuiltView(OneFile(name));
            && Inv(v) && LogicalLen(v) == 1
            && VisitListed(v, 0) == Some(Visit(name, false))
            && LogicalPath(v, 0).Ok?
  {
    var v := BuiltView(OneFile(name));
    BuiltViewOk(OneFile(name));
    BuiltRecordAt(OneFile(name), 0);
    BuiltNames(OneFile(name), 0);
    assert LogicalName(v, 0) == Some(name) && LogicalParent(v, 0) == None;
    assert NamesUp(v, 0, 0, 2) == Ok([name]);
  }

  /** A scan of the one file finds it exactly if its name matches. */
  lemma OneFileScan(env: Env, name: string, folded: string)
    ensures ScannedMatches(BuiltView(OneFile(name)), env, folded) ==
            OneIfSome(MatchOf(env, folded, 0, Some(Visit(name, false))))
  {
    var v := BuiltView(OneFile(name));
    OneFileOk(name);
    ScannedIsListed(v, 0);
    var find := ScannedMatcher(v, env, folded);
    assert CollectRange(0, 1, find) == CollectRange(0, 0, find) + OneIfSome(find(0));
  }

  lemma SortsSmall(env: Env, m: Scored, r: SearchResult)
    requires SortLaws(env)
    ensures env.sortScored([]) == [] && env.sortScored([m]) == [m]
    ensures env.sortResults([]) == [] && env.sortResults([r]) == [r]
  {
    assert SortsScored(env, []) && SortsScored(env, [m]) && SortsResults(env, []) && SortsResults(env, [r]);
    SameBag(env.sortScored([]), []);
    SameBag(env.sortScored([m]), [m]);
    SameBag(env.sortResults([]), []);
    SameBag(env.sortResults([r]), [r]);
  }

  lemma SameBag<T>(a: seq<T>, b: seq<T>)
    requires multiset(a) == multiset(b) && |b| <= 1
    ensures a == b
  {
    assert |a| == |multiset(a)| && |b| == |multiset(b)|;
    if |b| == 1 {
      assert a[0] in multiset(b);
    }
  }

  /** An index without matches shows nothing and remembers the empty candidate list. */
  lemma NoMatchSearch(v: View, env: Env, query: string, source: Option<seq<nat>>, budget: nat)
    requires SortLaws(env) && env.fold(query) != "" && Matches(v, env, env.fold(query), source) == []
    ensures SearchCandidates(v, env, query, source, 1, budget) == CandidateSearch([], Some([]))
  {
    SortsSmall(env, Scored(0, [], 0), SearchResult("", "", false, 0, []));
  }

  lemma OneMatchShown(env: Env, name: string, m: Scored)
    requires SortLaws(env) && m.index == 0
    ensures |Materialize(BuiltView(OneFile(name)), env, [m], 1)| == 1
  {
    var v := BuiltView(OneFile(name));
    OneFileOk(name);
    SortsSmall(env, m, SearchResult("", "", false, 0, []));
    assert Truncate([m], 1) == [m];
    assert ShowAll(v, [m]) == ShowAll(v, []) + OneIfSome(Show(v, m)) by { assert [m][..0] == []; }
  }

  /** A matching file is found and shown by the full scan. */
  lemma OneMatchSearch(env: Env, name: string, query: string, budget: nat)
    requires SortLaws(env) && env.fold(query) != "" && ScoreName(env.fold, env.fold(query), name, false).Some?
    ensures |SearchCandidates(BuiltView(OneFile(name)), env, query, None, 1, budget).results| == 1
  {
    OneFileScan(env, name, env.fold(query));
    var m := MatchOf(env, env.fold(query), 0, Some(Visit(name, false))).value;
    assert TopN([m], 2) == [m] by { assert [m][..0] == []; assert TopN([], 2) == []; }
    OneMatchShown(env, name, m);
  }

  lemma OneDriveScan(name: string, env: Env, query: string, source: Option<seq<DriveCandidateSet>>)
    ensures ScanDrives(OneDrive(name).indexes, env, query, source, 1, MAX_CACHED_CANDIDATES) ==
            AddDrive(DriveScan([], Some([]), MAX_CACHED_CANDIDATES), 'C',
                     SearchCandidates(BuiltView(OneFile(name)), env, query, SourceIds(source, 'C'), 1, MAX_CACHED_CANDIDATES))
  {
    var indexes := OneDrive(name).indexes;
    assert indexes[..0] == [];
  }

  lemma EmptyPush(s: SessionState, prefix: string)
    requires s.snapshots == [] && s.candidateCount == 0
    ensures Push(s, prefix, 1, [DriveCandidateSet('C', [])]).snapshots ==
            [CandidateSnapshot(prefix, 1, [DriveCandidateSet('C', [])], 0)]
  {
    assert [DriveCandidateSet('C', [])][..0] == [];
    assert IdCount([DriveCandidateSet('C', [])]) == 0;
  }

  /** A prefix that does not match the file leaves an empty snapshot for it. */
  lemma EmptySnapshot(env: Env, name: string, prefix: string)
    requires SortLaws(env) && FoldLaws(env.fold) && CharCount(prefix) >= MIN_CACHED_QUERY_CHARS
    requires ScoreName(env.fold, env.fold(prefix), name, false).None?
    ensures Query(EMPTY_SESSION, OneDrive(name), env, prefix, 1, false).0.snapshots ==
            [CandidateSnapshot(prefix, 1, [DriveCandidateSet('C', [])], 0)]
  {
    FirstQuery(OneDrive(name), env, prefix, 1);
    EmptySets(env, name, prefix);
    EmptyPush(EMPTY_SESSION.(lastMode := FullScan), prefix);
  }

  lemma FirstSetAdded(found: CandidateSearch, budget: nat)
    requires found.candidateIds == Some([])
    ensures AddDrive(DriveScan([], Some([]), budget), 'C', found).drives == Some([DriveCandidateSet('C', [])])
  {
    assert [] + [DriveCandidateSet('C', [])] == [DriveCandidateSet('C', [])];
  }

  lemma EmptySets(env: Env, name: string, prefix: string)
    requires SortLaws(env) && FoldLaws(env.fold) && prefix != ""
    requires ScoreName(env.fold, env.fold(prefix), name, false).None?
    ensures SearchAll(OneDrive(name), env, prefix, None, 1, MAX_CACHED_CANDIDATES).drives == Some([DriveCandidateSet('C', [])])
  {
    assert FoldsLikeAscii(env.fold, prefix);
    OneFileScan(env, name, env.fold(prefix));
    NoMatchSearch(BuiltView(OneFile(name)), env, prefix, None, MAX_CACHED_CANDIDATES);
    OneDriveScan(name, env, prefix, None);
    FirstSetAdded(CandidateSearch([], Some([])), MAX_CACHED_CANDIDATES);
  }

  /** Refining an empty snapshot finds nothing. */
  lemma EmptyRefinement(env: Env, name: string, query: string)
    requires SortLaws(env) && env.fold(query) != ""
    ensures SearchAll(OneDrive(name), env, query, Some([DriveCandidateSet('C', [])]), 1, MAX_CACHED_CANDIDATES).results == []
  {
    var source := Some([DriveCandidateSet('C', [])]);
    assert SourceIds(source, 'C') == Some([]);
    NoMatchSearch(BuiltView(OneFile(name)), env, query, Some([]), MAX_CACHED_CANDIDATES);
    OneDriveScan(name, env, query, source);
    var none: seq<SearchResult> := [];
    assert none + none == none;
    SortsSmall(env, Scored(0, [], 0), SearchResult("", "", false, 0, []));
  }

  lemma FullScanFinds(env: Env, name: string, query: string)
    requires SortLaws(env) && env.fold(query) != "" && ScoreName(env.fold, env.fold(query), name, false).Some?
    ensures |Uncached(OneDrive(name), env, query, 1)| == 1
  {
    OneMatchSearch(env, name, query, MAX_CACHED_CANDIDATES);
    OneDriveScan(name, env, query, None);
    OneResultStays(env, SearchCandidates(BuiltView(OneFile(name)), env, query, None, 1, MAX_CACHED_CANDIDATES).results);
  }

  lemma OneResultStays(env: Env, results: seq<SearchResult>)
    requires SortLaws(env) && |results| == 1
    ensures RankAndLimit(env, [] + results, 1) == results
  {
    assert results == [results[0]] && [] + results == results;
    SortsSmall(env, Scored(0, [], 0), results[0]);
  }

  /** A query that extends the remembered prefix looks only among its matches, of which there are none. */
  lemma SecondAnswerEmpty(env: Env, name: string, prefix: string, query: string)
    requires SortLaws(env) && FoldLaws(env.fold)
    requires CharCount(prefix) >= MIN_CACHED_QUERY_CHARS && CharCount(query) >= MIN_CACHED_QUERY_CHARS
    requires prefix <= query && prefix != query && query != ""
    requires ScoreName(env.fold, env.fold(prefix), name, false).None?
    ensures SecondAnswer(OneDrive(name), env, prefix, query, 1) == []
  {
    assert FoldsLikeAscii(env.fold, query);
    EmptySnapshot(env, name, prefix);
    EmptyRefinement(env, name, query);
    var first := Query(EMPTY_SESSION, OneDrive(name), env, prefix, 1, false).0;
    var snap := CandidateSnapshot(prefix, 1, [DriveCandidateSet('C', [])], 0);
    assert first.snapshots == [snap] && [snap][..0] == [];
    assert LastExact([snap], 1, query) == None;
    assert BestBroader([snap], 1, query) == Some(0);
    assert PlanFor(first, 1, query) == Plan(CandidateFilter, Some(0));
  }

  /** A file named like the query is missed when its name does not match the prefix typed before. */
  lemma FileIsMissed(env: Env, prefix: string, query: string)
    requires SortLaws(env) && FoldLaws(env.fold) && CharCount(prefix) >= MIN_CACHED_QUERY_CHARS
    requires prefix <= query && CharCount(query) >= MIN_CACHED_QUERY_CHARS
    requires !Contains(env.fold(query), env.fold(prefix))
    ensures ManagerOk(OneDrive(query))
    ensures SecondAnswer(OneDrive(query), env, prefix, query, 1) == []
    ensures |Uncached(OneDrive(query), env, query, 1)| == 1
  {
    assert FoldsLikeAscii(env.fold, query) && FoldsLikeAscii(env.fold, prefix);
    ContainsItself(env.fold(query));
    MatchIsContains(env.fold, env.fold(query), query, false);
    MatchIsContains(env.fold, env.fold(prefix), query, false);
    OneFileOk(query);
    SecondAnswerEmpty(env, query, prefix, query);
    FullScanFinds(env, query, query);
  }

  /**
   Typing on from a cached prefix is safe for every index if and only if the
   folded query contains the folded prefix.
   */
  lemma ReuseSafeIffFoldContains(env: Env, prefix: string, query: string)
    requires SortLaws(env) && FoldLaws(env.fold)
    requires prefix <= query
    requires CharCount(prefix) >= MIN_CACHED_QUERY_CHARS && CharCount(query) >= MIN_CACHED_QUERY_CHARS
    ensures AlwaysAlike(env, prefix, query) <==> Contains(env.fold(query), env.fold(prefix))
  {
    if Contains(env.fold(query), env.fold(prefix)) {
      forall m: Manager, limit: nat | ManagerOk(m) ensures AnswersAlike(m, env, prefix, query, limit) {
        ReuseIsSafe(m, env, prefix, query, limit);
      }
    } else {
      FileIsMissed(env, prefix, query);
      assert !AnswersAlike(OneDrive(query), env, prefix, query, 1);
    }
  }

  /** ASCII queries are always safe to type on. */
  lemma AsciiReuseIsSafe(env: Env, prefix: string, query: string)
    requires FoldLaws(env.fold) && prefix <= query && IsAscii(query)
    ensures Contains(env.fold(query), env.fold(prefix))
  {
    assert FoldsLikeAscii(env.fold, query) && FoldsLikeAscii(env.fold, prefix);
    assert IsAscii(prefix);
    assert AsciiLower(query)[0..0 + |prefix|] == AsciiLower(prefix);
    assert OccursAt(env.fold(query), env.fold(prefix), 0, false);
  }

  // ----- Sessions in ASCII -----

  /** Whatever an ASCII query reuses, it contains. */
  lemma AsciiReusesContained(s: SessionState, generation: nat, env: Env, query: string)
    requires FoldLaws(env.fold) && IsAscii(query)
    ensures ReusesContained(s, generation, env, query)
  {
    var current := Refresh(s, generation);
    var source := PlanFor(current, generation, query).source;
    if source.Some? { AsciiReuseIsSafe(env, current.snapshots[source.value].query, query); }
  }

  /** Every query of the run is ASCII, and its manager changes fit. */
  ghost predicate AsciiRun(w: World, env: Env, steps: seq<Step>) {
    steps == [] ||
    (var init, step := steps[..|steps| - 1], steps[|steps| - 1];
     AsciiRun(w, env, init) && StepFits(AfterAll(w, env, init), step) && (step.Ask? ==> IsAscii(step.query)))
  }

  lemma {:induction false} AsciiRunIsOk(w: World, env: Env, steps: seq<Step>)
    requires FoldLaws(env.fold) && AsciiRun(w, env, steps)
    ensures RunOk(w, env, steps)
  {
    if steps != [] {
      var init, step := steps[..|steps| - 1], steps[|steps| - 1];
      var before := AfterAll(w, env, init);
      AsciiRunIsOk(w, env, init);
      if step.Ask? { AsciiReusesContained(before.session, before.manager.generation, env, step.query); }
    }
  }

  /** In ASCII a session always answers as an uncached search, after any run of queries and manager changes. */
  lemma AsciiSessionCoherence(m: Manager, env: Env, steps: seq<Step>, query: string, limit: nat)
    requires FoldLaws(env.fold) && ManagerOk(m) && AsciiRun(World(EMPTY_SESSION, m), env, steps)
    requires CharCount(query) >= MIN_CACHED_QUERY_CHARS && IsAscii(query)
    ensures var w := AfterAll(World(EMPTY_SESSION, m), env, steps);
            Query(w.session, w.manager, env, query, limit, false).1 == Uncached(w.manager, env, query, limit)
  {
    var w := AfterAll(World(EMPTY_SESSION, m), env, steps);
    AsciiRunIsOk(World(EMPTY_SESSION, m), env, steps);
    AsciiReusesContained(w.session, w.manager.generation, env, query);
    SessionCoherence(m, env, steps, query, limit);
  }

  // ----- The final sigma -----

  /** "abΣ" and "abΣd" as UTF-8 units. */
  const AB_SIGMA: string := "ab\U{CE}\U{A3}"
  const AB_SIGMA_D: string := "ab\U{CE}\U{A3}d"

  /** Unicode lower-casing: a sigma that ends its word becomes final, any other does not. */
  ghost predicate LowersSigma(fold: Fold) {
    fold(AB_SIGMA) == "ab\U{CF}\U{82}" && fold(AB_SIGMA_D) == "ab\U{CF}\U{83}d"
  }

  /** Typing a letter after a final sigma loses a file that an uncached search finds. */
  lemma FinalSigmaLosesMatches(env: Env)
    requires SortLaws(env) && FoldLaws(env.fold) && LowersSigma(env.fold)
    ensures SecondAnswer(OneDrive(AB_SIGMA_D), env, AB_SIGMA, AB_SIGMA_D, 1) == []
    ensures |Uncached(OneDrive(AB_SIGMA_D), env, AB_SIGMA_D, 1)| == 1
  {
    var folded, final := "ab\U{CF}\U{83}d", "ab\U{CF}\U{82}";
    forall i: nat ensures !OccursAt(folded, final, i, false) {
      if i <= 1 {
        assert folded[i..i + 4][3] != final[3];
      }
    }
    assert CharCount(AB_SIGMA) == 3 by { CharCountOfAbSigma(); }
    assert CharCount(AB_SIGMA_D) == 4 by { CharCountOfAbSigma(); }
    assert AB_SIGMA <= AB_SIGMA_D;
    FileIsMissed(env, AB_SIGMA, AB_SIGMA_D);
  }

  lemma CharCountOfAbSigma()
    ensures CharCount(AB_SIGMA) == 3 && CharCount(AB_SIGMA_D) == 4
  {
    assert AB_SIGMA_D[..4] == AB_SIGMA;
    assert AB_SIGMA[..3] == "ab\U{CE}";
    assert "ab\U{CE}"[..2] == "ab";
    assert "ab"[..1] == "a";
    assert "a"[..0] == "";
  }
}
