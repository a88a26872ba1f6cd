/**
 What a session returns after any run of queries, cancellations and manager
 changes: a query of fewer than three characters goes to the drives' own search,
 a longer one to the candidate search, and a cancelled one returns nothing.
 */
module SessionAnswers {
  import opened Basics
  import opened Matching
  import opened TopScores
  import opened Search
  import opened Ranking
  import opened Drives
  import opened DriveAnswers
  import opened Session

  /** Every manager change of the run fits; what is asked is arbitrary. */
  ghost predicate FitRun(w: World, env: Env, steps: seq<Step>) {
    steps == [] ||
    (var init := steps[..|steps| - 1];
     FitRun(w, env, init) && StepFits(AfterAll(w, env, init), steps[|steps| - 1]))
  }

  lemma {:induction false} RunKeepsManager(w: World, env: Env, steps: seq<Step>)
    requires ManagerOk(w.manager) && FitRun(w, env, steps)
    ensures ManagerOk(AfterAll(w, env, steps).manager)
  {
    if steps != [] {
      RunKeepsManager(w, env, steps[..|steps| - 1]);
      StepKeepsManager(AfterAll(w, env, steps[..|steps| - 1]), env, steps[|steps| - 1]);
    }
  }

  /** What the session returns to an uncancelled query after the run. */
  function Answer(w: World, env: Env, steps: seq<Step>, query: string, limit: nat): seq<SearchResult> {
    var now := AfterAll(w, env, steps);
    Query(now.session, now.manager, env, query, limit, false).1
  }

  /**
   A query of fewer than three characters: each result shows a record of some drive
   that a query of this length may find, best first, and where the limit leaves
   room for all matches none is missing.
   */
  lemma ShortQueryAnswers(w: World, env: Env, steps: seq<Step>, query: string, limit: nat, r: SearchResult)
    requires ManagerOk(w.manager) && FitRun(w, env, steps) && SortLaws(env) && CharCount(query) < 3
    ensures var rs, drives := Answer(w, env, steps, query, limit), AfterAll(w, env, steps).manager.indexes;
            var sought := SoughtOn(drives, env.fold, env.fold(query), limit, r);
            && Descending(ResultPoints(rs)) && |rs| <= limit && (r in rs ==> sought)
            && (TotalMatches(drives, env.fold, env.fold(query)) <= limit ==> (sought ==> r in rs))
    ensures AfterAll(w, env, steps + [Ask(query, limit, false)]).session.snapshots == []
  {
    assert (steps + [Ask(query, limit, false)])[..|steps|] == steps;
    RunKeepsManager(w, env, steps);
    AllDirectAnswers(AfterAll(w, env, steps).manager, env, query, limit, r);
  }

  /** And it returns the best scores of all matches that a query of this length may find, if all that is selected has a path. */
  lemma ShortQueryKeepsTop(w: World, env: Env, steps: seq<Step>, query: string, limit: nat)
    requires ManagerOk(w.manager) && FitRun(w, env, steps) && SortLaws(env) && CharCount(query) < 3
    requires SelectionsShow(AfterAll(w, env, steps).manager.indexes, env, query, limit)
    ensures KeepsTop(ResultPoints(Answer(w, env, steps, query, limit)),
                     PointsSought(AfterAll(w, env, steps).manager.indexes, env.fold, env.fold(query), limit), limit)
  {
    RunKeepsManager(w, env, steps);
    AllDirectKeepsTop(AfterAll(w, env, steps).manager, env, query, limit);
  }

  /** A longer query that contains what it reuses: each result shows a match on some drive, and none is missing where there is room. */
  lemma LongQueryAnswers(m: Manager, env: Env, steps: seq<Step>, query: string, limit: nat, r: SearchResult)
    requires FoldLaws(env.fold) && SortLaws(env) && CharCount(query) >= 3
    requires ManagerOk(m) && RunOk(World(EMPTY_SESSION, m), env, steps)
    requires var now := AfterAll(World(EMPTY_SESSION, m), env, steps);
             ReusesContained(now.session, now.manager.generation, env, query)
    ensures var rs := Answer(World(EMPTY_SESSION, m), env, steps, query, limit);
            var drives := AfterAll(World(EMPTY_SESSION, m), env, steps).manager.indexes;
            var answered := AnsweredOn(drives, env.fold, env.fold(query), r);
            && Descending(ResultPoints(rs)) && |rs| <= limit && (r in rs ==> answered)
            && (TotalMatches(drives, env.fold, env.fold(query)) <= limit ==> (answered ==> r in rs))
  {
    assert FoldsLikeAscii(env.fold, query);
    RunKeepsWorld(World(EMPTY_SESSION, m), env, steps);
    SessionCoherence(m, env, steps, query, limit);
    AllAnswers(AfterAll(World(EMPTY_SESSION, m), env, steps).manager, env, query, limit, MAX_CACHED_CANDIDATES, r);
  }

  /** A cancelled query returns nothing, whatever the session holds. */
  lemma CancelledReturnsNothing(s: SessionState, m: Manager, env: Env, query: string, limit: nat)
    ensures Query(s, m, env, query, limit, true).1 == []
  {}

  // ----- Which snapshot is reused, and what is remembered -----

  predicate Extends(snap: CandidateSnapshot, generation: nat, query: string) {
    snap.generation == generation && snap.query <= query
  }

  lemma {:induction false} BroaderIsLongest(snaps: seq<CandidateSnapshot>, generation: nat, query: string)
    ensures var best := BestBroader(snaps, generation, query);
            forall k :: 0 <= k < |snaps| && IsBroader(snaps[k], generation, query) ==>
              best.Some? && |snaps[k].query| <= |snaps[best.value].query|
  {
    if snaps != [] {
      var last := |snaps| - 1;
      BroaderIsLongest(snaps[..last], generation, query);
      forall k | 0 <= k < last && IsBroader(snaps[k], generation, query)
        ensures BestBroader(snaps[..last], generation, query).Some?
        ensures |snaps[k].query| <= |snaps[BestBroader(snaps[..last], generation, query).value].query|
      {
        assert snaps[..last][k] == snaps[k];
      }
    }
  }

  /**
   A query reuses the snapshot of the longest remembered query that it extends: its
   own, or else a shorter one to be filtered; without any it scans everything.
   */
  lemma PlanReusesLongest(s: SessionState, generation: nat, query: string)
    ensures var plan, snaps := PlanFor(s, generation, query), s.snapshots;
            && (plan.source.Some? <==> exists k :: 0 <= k < |snaps| && Extends(snaps[k], generation, query))
            && (plan.source.Some? ==>
                  var used := snaps[plan.source.value];
                  && Extends(used, generation, query) && plan.mode == (if used.query == query then Snapshot else CandidateFilter)
                  && forall k :: 0 <= k < |snaps| && Extends(snaps[k], generation, query) ==> |snaps[k].query| <= |used.query|)
            && (plan.source.None? ==> plan.mode == FullScan)
  {
    BroaderIsLongest(s.snapshots, generation, query);
    forall k | 0 <= k < |s.snapshots| && Extends(s.snapshots[k], generation, query)
      ensures IsExact(s.snapshots[k], generation, query) || IsBroader(s.snapshots[k], generation, query)
      ensures |s.snapshots[k].query| <= |query|
    {}
  }

  lemma {:induction false} CompleteSetsCount(indexes: seq<DriveIndex>, env: Env, folded: string)
    requires AllStructOk(indexes)
    ensures IdCount(CompleteSets(indexes, env, folded)) == TotalMatches(indexes, env.fold, folded)
  {
    if indexes != [] {
      CompleteSetsCount(indexes[..|indexes| - 1], env, folded);
      ScanCountsMatches(indexes[|indexes| - 1].view, env, folded);
      IndicesLength(ScannedMatches(indexes[|indexes| - 1].view, env, folded));
    }
  }

  lemma {:induction false} PartOfTotalIds(snaps: seq<CandidateSnapshot>, k: nat)
    requires k < |snaps|
    ensures snaps[k].candidateCount <= TotalIds(snaps)
  {
    if k > 0 {
      PartOfTotalIds(snaps[1..], k - 1);
    }
  }

  lemma SnapshotFits(s: SessionState, m: Manager, env: Env, k: nat)
    requires ManagerOk(m) && Coherent(s, m, env) && MemoryOk(s)
    requires k < |s.snapshots| && s.snapshots[k].generation == m.generation
    ensures TotalMatches(m.indexes, env.fold, env.fold(s.snapshots[k].query)) <= MAX_CACHED_CANDIDATES
  {
    assert SnapshotCoherent(s.snapshots[k], m, env);
    CompleteSetsCount(m.indexes, env, env.fold(s.snapshots[k].query));
    PartOfTotalIds(s.snapshots, k);
  }

  /** The plan finds what was pushed. */
  lemma PushedIsExact(s: SessionState, query: string, generation: nat, drives: seq<DriveCandidateSet>)
    requires IdCount(drives) <= MAX_CACHED_CANDIDATES
    ensures PlanFor(Push(s, query, generation, drives), generation, query).mode == Snapshot
  {
    var snaps := Push(s, query, generation, drives).snapshots;
    assert IsExact(snaps[|snaps| - 1], generation, query);
  }

  lemma NotRemembered(s: SessionState, plan: Plan, m: Manager, query: string)
    requires plan == PlanFor(s, m.generation, query) && plan.mode != Snapshot
    ensures PlanFor((if plan.mode == FullScan then EMPTY_SESSION else s).(lastMode := plan.mode), m.generation, query).mode != Snapshot
  {}

  /** A scan of all drives is pushed if and only if all its matches fit the cache, and the plan then finds it. */
  lemma PushedIffMatchesFit(noted: SessionState, m: Manager, env: Env, query: string, limit: nat)
    requires ManagerOk(m) && limit > 0 && env.fold(query) != ""
    requires PlanFor(noted, m.generation, query).mode != Snapshot
    ensures var out := SearchAll(m, env, query, None, limit, MAX_CACHED_CANDIDATES);
            var after := if out.drives.Some? then Push(noted, query, m.generation, out.drives.value) else noted;
            PlanFor(after, m.generation, query).mode == Snapshot <==>
            TotalMatches(m.indexes, env.fold, env.fold(query)) <= MAX_CACHED_CANDIDATES
  {
    var out := SearchAll(m, env, query, None, limit, MAX_CACHED_CANDIDATES);
    CandidatesKeptIffTheyFit(m.indexes, env, query, limit, MAX_CACHED_CANDIDATES);
    if out.drives.Some? {
      CompleteSetsCount(m.indexes, env, env.fold(query));
      ScanCollectsCompleteSets(m.indexes, env, query, limit, MAX_CACHED_CANDIDATES);
      PushedIsExact(noted, query, m.generation, out.drives.value);
    }
  }

  /** A query is remembered, so that asking it again reuses its own snapshot, if and only if all its matches fit the cache. */
  lemma RememberedIffMatchesFit(s: SessionState, m: Manager, env: Env, query: string, limit: nat)
    requires FoldLaws(env.fold) && ManagerOk(m) && Coherent(s, m, env) && MemoryOk(s)
    requires CharCount(query) >= 3 && limit > 0 && ReusesContained(s, m.generation, env, query)
    ensures PlanFor(Query(s, m, env, query, limit, false).0, m.generation, query).mode == Snapshot <==>
            TotalMatches(m.indexes, env.fold, env.fold(query)) <= MAX_CACHED_CANDIDATES
  {
    var current := Refresh(s, m.generation);
    var plan := PlanFor(current, m.generation, query);
    if plan.mode == Snapshot {
      SnapshotFits(current, m, env, plan.source.value);
      assert Query(s, m, env, query, limit, false).0.snapshots == current.snapshots;
    } else {
      assert FoldsLikeAscii(env.fold, query);
      PlannedSearchIsUncached(current, m, env, query, limit);
      NotRemembered(current, plan, m, query);
      PushedIffMatchesFit((if plan.mode == FullScan then EMPTY_SESSION else current).(lastMode := plan.mode),
                          m, env, query, limit);
    }
  }

  /** The session reports how the last uncancelled query was answered. */
  lemma ModeIsReported(s: SessionState, m: Manager, env: Env, query: string, limit: nat)
    ensures Query(s, m, env, query, limit, false).0.lastMode ==
            if CharCount(query) < 3 then PrefixIndex else PlanFor(Refresh(s, m.generation), m.generation, query).mode
  {
    var current := Refresh(s, m.generation);
    var plan := PlanFor(current, m.generation, query);
    var noted := (if plan.mode == FullScan then EMPTY_SESSION else current).(lastMode := plan.mode);
    var out := SearchAll(m, env, query, SourceFor(current, plan), limit, MAX_CACHED_CANDIDATES);
    if out.drives.Some? { PushKeepsMode(noted, query, m.generation, out.drives.value); }
  }

  lemma PushKeepsMode(s: SessionState, query: string, generation: nat, drives: seq<DriveCandidateSet>)
    ensures Push(s, query, generation, drives).lastMode == s.lastMode
  {
    EvictKeepsMode(s, IdCount(drives));
  }

  lemma {:induction false} EvictKeepsMode(s: SessionState, count: nat)
    ensures Evict(s, count).lastMode == s.lastMode
    decreases |s.snapshots|
  {
    if s.snapshots != [] {
      var gone := s.snapshots[0].candidateCount;
      EvictKeepsMode(s.(snapshots := s.snapshots[1..],
                        candidateCount := if s.candidateCount < gone then 0 else s.candidateCount - gone), count);
    }
  }

  // ----- Asking again -----

  lemma PushedIsLast(s: SessionState, query: string, generation: nat, drives: seq<DriveCandidateSet>)
    ensures var after := Push(s, query, generation, drives).snapshots;
            after == s.snapshots || (after != [] && after[|after| - 1].generation == generation)
  {}

  /** Whatever a query leaves behind, cancelled or not, is of the manager's current generation. */
  lemma QueryLeavesCurrent(s: SessionState, m: Manager, env: Env, query: string, limit: nat, cancelled: bool)
    requires MemoryOk(s)
    ensures var after := Query(s, m, env, query, limit, cancelled).0.snapshots;
            forall k :: 0 <= k < |after| ==> after[k].generation == m.generation
  {
    QueryKeepsMemory(s, m, env, query, limit, cancelled);
    var current := Refresh(s, m.generation);
    var plan := PlanFor(current, m.generation, query);
    var noted := (if plan.mode == FullScan then EMPTY_SESSION else current).(lastMode := plan.mode);
    var out := SearchAll(m, env, query, SourceFor(current, plan), limit, MAX_CACHED_CANDIDATES);
    if out.drives.Some? { PushedIsLast(noted, query, m.generation, out.drives.value); }
  }

  lemma CurrentStays(s: SessionState, generation: nat)
    requires forall k :: 0 <= k < |s.snapshots| ==> s.snapshots[k].generation == generation
    ensures Refresh(s, generation) == s
  {}

  /** Asking a query twice in a row reuses its own snapshot if and only if all its matches fit the cache. */
  lemma AskedAgainIffMatchesFit(s: SessionState, m: Manager, env: Env, query: string, limit: nat)
    requires FoldLaws(env.fold) && ManagerOk(m) && Coherent(s, m, env) && MemoryOk(s)
    requires CharCount(query) >= 3 && limit > 0 && ReusesContained(s, m.generation, env, query)
    ensures var once := Query(s, m, env, query, limit, false).0;
            Query(once, m, env, query, limit, false).0.lastMode == Snapshot <==>
            TotalMatches(m.indexes, env.fold, env.fold(query)) <= MAX_CACHED_CANDIDATES
  {
    var once := Query(s, m, env, query, limit, false).0;
    RememberedIffMatchesFit(s, m, env, query, limit);
    QueryLeavesCurrent(s, m, env, query, limit, false);
    CurrentStays(once, m.generation);
    ModeIsReported(once, m, env, query, limit);
  }
}
