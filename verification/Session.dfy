/**
 The per-input candidate cache of incremental search (search_session.rs): it
 stays within its memory bounds and answers as an uncached search would.
 */
module Session {
  import opened Basics
  import opened Records
  import opened Paths
  import opened Overlay
  import opened Matching
  import opened Search
  import opened Drives

  const MIN_CACHED_QUERY_CHARS: nat := 3
  const MAX_SNAPSHOTS: nat := 4
  const MAX_CACHED_CANDIDATES: nat := 32 * 1024 * 1024 / 4

  datatype SearchMode = PrefixIndex | FullScan | CandidateFilter | Snapshot

  datatype CandidateSnapshot = CandidateSnapshot(
    query: string, generation: nat, drives: seq<DriveCandidateSet>, candidateCount: nat)

  datatype SessionState = SessionState(snapshots: seq<CandidateSnapshot>, candidateCount: nat, lastMode: SearchMode)

  const EMPTY_SESSION := SessionState([], 0, PrefixIndex)

  // ----- The session's operations on values -----

  function IdCount(sets: seq<DriveCandidateSet>): nat {
    if sets == [] then 0 else IdCount(sets[..|sets| - 1]) + |sets[|sets| - 1].ids|
  }

  predicate IsExact(snap: CandidateSnapshot, generation: nat, query: string) {
    snap.generation == generation && snap.query == query
  }

  predicate IsBroader(snap: CandidateSnapshot, generation: nat, query: string) {
    snap.generation == generation && snap.query <= query && query != snap.query
  }

  /** The latest snapshot of this very query. */
  function LastExact(snaps: seq<CandidateSnapshot>, generation: nat, query: string): (found: Option<nat>)
    ensures found.Some? ==> found.value < |snaps| && IsExact(snaps[found.value], generation, query)
    ensures found.None? ==> forall k :: 0 <= k < |snaps| ==> !IsExact(snaps[k], generation, query)
  {
    if snaps == [] then None
    else if IsExact(snaps[|snaps| - 1], generation, query) then Some(|snaps| - 1)
    else LastExact(snaps[..|snaps| - 1], generation, query)
  }

  /** The latest among the longest queries that this one extends. */
  function BestBroader(snaps: seq<CandidateSnapshot>, generation: nat, query: string): (found: Option<nat>)
    ensures found.Some? ==> found.value < |snaps| && IsBroader(snaps[found.value], generation, query)
  {
    if snaps == [] then None
    else
      var last := |snaps| - 1;
      var best := BestBroader(snaps[..last], generation, query);
      if !IsBroader(snaps[last], generation, query) then best
      else if best.Some? && |snaps[best.value].query| > |snaps[last].query| then best
      else Some(last)
  }

  /** The first snapshot tells the generation of all; a stale one empties the cache. */
  function Refresh(s: SessionState, generation: nat): SessionState {
    if s.snapshots != [] && s.snapshots[0].generation != generation then EMPTY_SESSION else s
  }

  datatype Plan = Plan(mode: SearchMode, source: Option<nat>)

  function PlanFor(s: SessionState, generation: nat, query: string): (plan: Plan)
    ensures plan.source.Some? ==> plan.source.value < |s.snapshots|
  {
    var exact := LastExact(s.snapshots, generation, query);
    var broader := BestBroader(s.snapshots, generation, query);
    if exact.Some? then Plan(Snapshot, exact)
    else if broader.Some? then Plan(CandidateFilter, broader)
    else Plan(FullScan, None)
  }

  function SourceFor(s: SessionState, plan: Plan): Option<seq<DriveCandidateSet>>
    requires plan.source.Some? ==> plan.source.value < |s.snapshots|
  {
    if plan.source.Some? then Some(s.snapshots[plan.source.value].drives) else None
  }

  /** Drop oldest snapshots until one more of `count` ids fits. */
  function Evict(s: SessionState, count: nat): SessionState
    decreases |s.snapshots|
  {
    if (|s.snapshots| >= MAX_SNAPSHOTS || s.candidateCount + count > MAX_CACHED_CANDIDATES) && s.snapshots != [] then
      var gone := s.snapshots[0].candidateCount;
      Evict(s.(snapshots := s.snapshots[1..],
               candidateCount := if s.candidateCount < gone then 0 else s.candidateCount - gone), count)
    else s
  }

  function Push(s: SessionState, query: string, generation: nat, drives: seq<DriveCandidateSet>): SessionState {
    var count := IdCount(drives);
    if count > MAX_CACHED_CANDIDATES then s
    else
      var room := Evict(s, count);
      room.(snapshots := room.snapshots + [CandidateSnapshot(query, generation, drives, count)],
            candidateCount := room.candidateCount + count)
  }

  /**
   One query. `cancelled` is the token at the last check. A query of fewer than
   three characters empties the cache and goes to the manager's own search.
   */
  function Query(s: SessionState, m: Manager, env: Env, query: string, limit: nat, cancelled: bool)
    : (SessionState, seq<SearchResult>)
  {
    if CharCount(query) < MIN_CACHED_QUERY_CHARS then
      (EMPTY_SESSION, if cancelled then [] else SearchAllDirect(m, env, query, limit))
    else
      var current := Refresh(s, m.generation);
      var plan := PlanFor(current, m.generation, query);
      var kept := if plan.mode == FullScan then EMPTY_SESSION else current;
      var out := SearchAll(m, env, query, SourceFor(current, plan), limit, MAX_CACHED_CANDIDATES);
      if cancelled then (kept, [])
      else
        var noted := kept.(lastMode := plan.mode);
        if plan.mode != Snapshot && out.drives.Some?
        then (Push(noted, query, m.generation, out.drives.value), out.results)
        else (noted, out.results)
  }

  /** The answer without a cache. */
  function Uncached(m: Manager, env: Env, query: string, limit: nat): seq<SearchResult> {
    SearchAll(m, env, query, None, limit, MAX_CACHED_CANDIDATES).results
  }

  // ----- The session object -----

  class SearchSession {
    var snapshots: seq<CandidateSnapshot>
    var candidateCount: nat
    var lastMode: SearchMode

    function State(): SessionState
      reads this
    {
      SessionState(snapshots, candidateCount, lastMode)
    }

    constructor ()
      ensures State() == EMPTY_SESSION
    {
      snapshots, candidateCount, lastMode := [], 0, PrefixIndex;
    }

    method Reset()
      modifies this
      ensures State() == EMPTY_SESSION
    {
      snapshots, candidateCount, lastMode := [], 0, PrefixIndex;
    }

    method PushSnapshot(query: string, generation: nat, drives: seq<DriveCandidateSet>)
      modifies this
      ensures State() == Push(old(State()), query, generation, drives)
    {
      var count := IdCount(drives);
      if count > MAX_CACHED_CANDIDATES { return; }
      ghost var room := Evict(State(), count);
      while (|snapshots| >= MAX_SNAPSHOTS || candidateCount + count > MAX_CACHED_CANDIDATES) && snapshots != []
        invariant Evict(State(), count) == room
        decreases |snapshots|
      {
        var gone := snapshots[0].candidateCount;
        snapshots := snapshots[1..];
        candidateCount := if candidateCount < gone then 0 else candidateCount - gone;
      }
      candidateCount := candidateCount + count;
      snapshots := snapshots + [CandidateSnapshot(query, generation, drives, count)];
    }

    method SearchFor(m: Manager, env: Env, query: string, limit: nat, cancelled: bool)
      returns (results: seq<SearchResult>)
      modifies this
      ensures (State(), results) == Query(old(State()), m, env, query, limit, cancelled)
    {
      if CharCount(query) < MIN_CACHED_QUERY_CHARS {
        Reset();
        return if cancelled then [] else SearchAllDirect(m, env, query, limit);
      }
      if snapshots != [] && snapshots[0].generation != m.generation { Reset(); }
      var plan := PlanFor(State(), m.generation, query);
      var source := SourceFor(State(), plan);
      if plan.mode == FullScan { Reset(); }
      var out := SearchAll(m, env, query, source, limit, MAX_CACHED_CANDIDATES);
      if cancelled { return []; }
      lastMode := plan.mode;
      if plan.mode != Snapshot && out.drives.Some? {
        PushSnapshot(query, m.generation, out.drives.value);
      }
      return out.results;
    }
  }

  // ----- Memory bounds -----

  function TotalIds(snaps: seq<CandidateSnapshot>): nat {
    if snaps == [] then 0 else snaps[0].candidateCount + TotalIds(snaps[1..])
  }

  ghost predicate SnapshotsOk(snaps: seq<CandidateSnapshot>) {
    && (forall k :: 0 <= k < |snaps| ==> snaps[k].candidateCount == IdCount(snaps[k].drives))
    && (forall k :: 0 <= k < |snaps| ==> snaps[k].generation == snaps[0].generation)
    && (forall j, k :: 0 <= j < k < |snaps| ==> snaps[j].query != snaps[k].query)
  }

  /** The counter is exact and bounded, snapshots are few, of one generation and of distinct queries. */
  ghost predicate MemoryOk(s: SessionState) {
    && SnapshotsOk(s.snapshots)
    && s.candidateCount == TotalIds(s.snapshots) <= 8_388_608
    && |s.snapshots| <= 4
  }

  lemma {:induction false} TotalIdsSnoc(snaps: seq<CandidateSnapshot>, snap: CandidateSnapshot)
    ensures TotalIds(snaps + [snap]) == TotalIds(snaps) + snap.candidateCount
  {
    if snaps == [] {
      assert snaps + [snap] == [snap];
      assert [snap][1..] == [];
    } else {
      assert (snaps + [snap])[1..] == snaps[1..] + [snap];
      TotalIdsSnoc(snaps[1..], snap);
    }
  }

  /** Eviction ends with room for the new set. */
  lemma {:induction false} EvictMakesRoom(s: SessionState, count: nat)
    requires MemoryOk(s) && count <= MAX_CACHED_CANDIDATES
    ensures MemoryOk(Evict(s, count))
    ensures |Evict(s, count).snapshots| < MAX_SNAPSHOTS
    ensures Evict(s, count).candidateCount + count <= MAX_CACHED_CANDIDATES
    decreases |s.snapshots|
  {
    if (|s.snapshots| >= MAX_SNAPSHOTS || s.candidateCount + count > MAX_CACHED_CANDIDATES) && s.snapshots != [] {
      var rest := s.(snapshots := s.snapshots[1..], candidateCount := s.candidateCount - s.snapshots[0].candidateCount);
      EvictMakesRoom(rest, count);
    }
  }

  /** Eviction drops no more than it must: one snapshot less, and there would be four left or too many candidates. */
  lemma {:induction false} EvictsAsNeeded(s: SessionState, count: nat) returns (dropped: nat)
    requires s.candidateCount == TotalIds(s.snapshots)
    ensures dropped <= |s.snapshots| && Evict(s, count).snapshots == s.snapshots[dropped..]
    ensures dropped > 0 ==>
              var more := s.snapshots[dropped - 1..]; |more| >= 4 || TotalIds(more) + count > 8_388_608
    decreases |s.snapshots|
  {
    if (|s.snapshots| >= MAX_SNAPSHOTS || s.candidateCount + count > MAX_CACHED_CANDIDATES) && s.snapshots != [] {
      var rest := s.(snapshots := s.snapshots[1..], candidateCount := s.candidateCount - s.snapshots[0].candidateCount);
      var d := EvictsAsNeeded(rest, count);
      dropped := d + 1;
      assert s.snapshots[0..] == s.snapshots;
      assert d > 0 ==> s.snapshots[1..][d - 1..] == s.snapshots[d..];
    } else {
      dropped := 0;
    }
  }

  /** Eviction drops the oldest snapshots and keeps the others. */
  lemma {:induction false} EvictKeepsNewest(s: SessionState, count: nat) returns (dropped: nat)
    ensures dropped <= |s.snapshots| && Evict(s, count).snapshots == s.snapshots[dropped..]
    decreases |s.snapshots|
  {
    if (|s.snapshots| >= MAX_SNAPSHOTS || s.candidateCount + count > MAX_CACHED_CANDIDATES) && s.snapshots != [] {
      var gone := s.snapshots[0].candidateCount;
      var rest := s.(snapshots := s.snapshots[1..],
                     candidateCount := if s.candidateCount < gone then 0 else s.candidateCount - gone);
      var d := EvictKeepsNewest(rest, count);
      return d + 1;
    }
    return 0;
  }

  lemma PushKeepsMemory(s: SessionState, query: string, generation: nat, drives: seq<DriveCandidateSet>)
    requires MemoryOk(s)
    requires forall k :: 0 <= k < |s.snapshots| ==> s.snapshots[k].generation == generation && s.snapshots[k].query != query
    ensures MemoryOk(Push(s, query, generation, drives))
  {
    var count := IdCount(drives);
    if count <= MAX_CACHED_CANDIDATES {
      EvictMakesRoom(s, count);
      var dropped := EvictKeepsNewest(s, count);
      TotalIdsSnoc(Evict(s, count).snapshots, CandidateSnapshot(query, generation, drives, count));
    }
  }

  /** Every query, cancelled or not, keeps the session within its memory bounds. */
  lemma QueryKeepsMemory(s: SessionState, m: Manager, env: Env, query: string, limit: nat, cancelled: bool)
    requires MemoryOk(s)
    ensures MemoryOk(Query(s, m, env, query, limit, cancelled).0)
  {
    var current := Refresh(s, m.generation);
    var plan := PlanFor(current, m.generation, query);
    var noted := (if plan.mode == FullScan then EMPTY_SESSION else current).(lastMode := plan.mode);
    var out := SearchAll(m, env, query, SourceFor(current, plan), limit, MAX_CACHED_CANDIDATES);
    assert MemoryOk(noted);
    if plan.mode != Snapshot && out.drives.Some? {
      PushKeepsMemory(noted, query, m.generation, out.drives.value);
    }
  }

  // ----- Coherence -----

  ghost predicate ManagerOk(m: Manager) { UniqueLetters(m.indexes) && AllStructOk(m.indexes) }

  ghost predicate SnapshotCoherent(snap: CandidateSnapshot, m: Manager, env: Env) {
    && CharCount(snap.query) >= MIN_CACHED_QUERY_CHARS
    && snap.generation <= m.generation
    && (snap.generation == m.generation ==> snap.drives == CompleteSets(m.indexes, env, env.fold(snap.query)))
  }

  /** Snapshots of the current generation hold the complete match list of their query, in scan order. */
  ghost predicate Coherent(s: SessionState, m: Manager, env: Env) {
    forall k :: 0 <= k < |s.snapshots| ==> SnapshotCoherent(s.snapshots[k], m, env)
  }

  /** The snapshot that a query would reuse, if any, belongs to a query that it contains, both folded. */
  ghost predicate PlanContained(s: SessionState, generation: nat, env: Env, query: string) {
    var source := PlanFor(s, generation, query).source;
    source.Some? ==> Contains(env.fold(query), env.fold(s.snapshots[source.value].query))
  }

  /** The same before the query drops a cache of another generation; short queries reuse nothing. */
  ghost predicate ReusesContained(s: SessionState, generation: nat, env: Env, query: string) {
    CharCount(query) >= MIN_CACHED_QUERY_CHARS ==> PlanContained(Refresh(s, generation), generation, env, query)
  }

  /** What the planned search returns is what a full scan returns, candidates included. */
  lemma PlannedSearchIsUncached(s: SessionState, m: Manager, env: Env, query: string, limit: nat)
    requires FoldLaws(env.fold) && ManagerOk(m) && Coherent(s, m, env)
    requires query != "" && PlanContained(s, m.generation, env, query)
    ensures var plan := PlanFor(s, m.generation, query);
            SearchAll(m, env, query, SourceFor(s, plan), limit, MAX_CACHED_CANDIDATES) ==
            SearchAll(m, env, query, None, limit, MAX_CACHED_CANDIDATES)
  {
    var plan := PlanFor(s, m.generation, query);
    if plan.source.Some? {
      var snap := s.snapshots[plan.source.value];
      assert SnapshotCoherent(snap, m, env);
      NarrowsIffContains(env.fold, snap.query, query);
      SearchRefinementIsFull(m, env, snap.query, query, limit, MAX_CACHED_CANDIDATES);
    }
  }

  lemma PushKeepsCoherent(s: SessionState, m: Manager, env: Env, query: string, drives: seq<DriveCandidateSet>)
    requires Coherent(s, m, env) && drives == CompleteSets(m.indexes, env, env.fold(query))
    requires CharCount(query) >= MIN_CACHED_QUERY_CHARS
    ensures Coherent(Push(s, query, m.generation, drives), m, env)
  {
    var count := IdCount(drives);
    if count <= MAX_CACHED_CANDIDATES {
      var dropped := EvictKeepsNewest(s, count);
    }
  }

  /** An uncancelled query of at least three characters answers as an uncached search, in every mode. */
  lemma QueryIsCoherent(s: SessionState, m: Manager, env: Env, query: string, limit: nat, cancelled: bool)
    requires FoldLaws(env.fold) && ManagerOk(m) && Coherent(s, m, env)
    requires ReusesContained(s, m.generation, env, query)
    ensures Coherent(Query(s, m, env, query, limit, cancelled).0, m, env)
    ensures !cancelled && CharCount(query) >= MIN_CACHED_QUERY_CHARS ==>
              Query(s, m, env, query, limit, cancelled).1 == Uncached(m, env, query, limit)
  {
    var current := Refresh(s, m.generation);
    var plan := PlanFor(current, m.generation, query);
    var noted := (if plan.mode == FullScan then EMPTY_SESSION else current).(lastMode := plan.mode);
    var out := SearchAll(m, env, query, None, limit, MAX_CACHED_CANDIDATES);
    if CharCount(query) >= MIN_CACHED_QUERY_CHARS {
      PlannedSearchIsUncached(current, m, env, query, limit);
      if out.drives.Some? {
        ScanCollectsCompleteSets(m.indexes, env, query, limit, MAX_CACHED_CANDIDATES);
        PushKeepsCoherent(noted, m, env, query, out.drives.value);
      }
    }
  }

  /** A manager step that bumps the generation on every change keeps a session coherent. */
  lemma ManagerStepKeepsCoherent(s: SessionState, m: Manager, after: Manager, env: Env)
    requires Coherent(s, m, env) && BumpsOnChange(m, after)
    ensures Coherent(s, after, env)
  {
    forall k | 0 <= k < |s.snapshots| ensures SnapshotCoherent(s.snapshots[k], after, env) {
      assert SnapshotCoherent(s.snapshots[k], m, env);
      if m.generation == after.generation {
        CompleteSetsDependOnContent(m.indexes, after.indexes, env, env.fold(s.snapshots[k].query));
      }
    }
  }

  // ----- Runs of queries and manager changes -----

  datatype Step =
    | Ask(query: string, limit: nat, cancelled: bool)
    | Reset
    | InstallStep(drive: char, view: View, cursor: UsnCursor)
    | RemoveStep(drive: char)
    | ApplyStep(drive: char, events: seq<UsnEvent>, cursor: UsnCursor)
    | CommitStep(drive: char, revision: nat, view: View, cursor: UsnCursor)

  datatype World = World(session: SessionState, manager: Manager)

  function After(w: World, env: Env, step: Step): World {
    match step
    case Ask(query, limit, cancelled) =>
      w.(session := Query(w.session, w.manager, env, query, limit, cancelled).0)
    case Reset => w.(session := EMPTY_SESSION)
    case InstallStep(drive, view, cursor) => w.(manager := Install(w.manager, drive, view, cursor))
    case RemoveStep(drive) => w.(manager := Remove(w.manager, drive))
    case ApplyStep(drive, events, cursor) => w.(manager := Apply(w.manager, drive, events, cursor))
    case CommitStep(drive, revision, view, cursor) => w.(manager := Commit(w.manager, drive, revision, view, cursor).0)
  }

  function AfterAll(w: World, env: Env, steps: seq<Step>): World {
    if steps == [] then w else After(AfterAll(w, env, steps[..|steps| - 1]), env, steps[|steps| - 1])
  }

  /** Installed and rebuilt indexes are sound and event batches fit. */
  ghost predicate StepFits(w: World, step: Step) {
    match step
    case Ask(query, limit, cancelled) => true
    case Reset => true
    case InstallStep(drive, view, cursor) => StructOk(view)
    case RemoveStep(drive) => true
    case ApplyStep(drive, events, cursor) =>
      forall d :: 0 <= d < |w.manager.indexes| ==> BatchFits(w.manager.indexes[d].view, events)
    case CommitStep(drive, revision, view, cursor) => StructOk(view)
  }

  /** Moreover, queries reuse only what they contain. */
  ghost predicate StepOk(w: World, env: Env, step: Step) {
    StepFits(w, step) && (step.Ask? ==> ReusesContained(w.session, w.manager.generation, env, step.query))
  }

  ghost predicate BatchFits(v: View, events: seq<UsnEvent>) {
    LogicalLen(v) + |events| <= PARENT_NONE
  }

  ghost predicate RunOk(w: World, env: Env, steps: seq<Step>) {
    steps == [] ||
    (RunOk(w, env, steps[..|steps| - 1]) && StepOk(AfterAll(w, env, steps[..|steps| - 1]), env, steps[|steps| - 1]))
  }

  ghost predicate WorldOk(w: World, env: Env) {
    FoldLaws(env.fold) && ManagerOk(w.manager) && Coherent(w.session, w.manager, env)
  }

  lemma ApplyKeepsManagerOk(m: Manager, drive: char, events: seq<UsnEvent>, cursor: UsnCursor)
    requires ManagerOk(m) && forall d :: 0 <= d < |m.indexes| ==> BatchFits(m.indexes[d].view, events)
    ensures ManagerOk(Apply(m, drive, events, cursor))
  {
    ApplyBumps(m, drive, events, cursor);
    var found := Find(m.indexes, UpperChar(drive));
    if found.Some? {
      assert BatchFits(m.indexes[found.value].view, events);
      ApplyEventsKeepStruct(m.indexes[found.value].view, events);
    }
  }

  /** Whatever is asked, manager changes that fit keep the indexes sound. */
  lemma StepKeepsManager(w: World, env: Env, step: Step)
    requires ManagerOk(w.manager) && StepFits(w, step)
    ensures ManagerOk(After(w, env, step).manager)
  {
    match step {
      case Ask(query, limit, cancelled) =>
      case Reset =>
      case InstallStep(drive, view, cursor) =>
        InstallBumps(w.manager, drive, view, cursor);
        InstallKeepsStruct(w.manager, drive, view, cursor);
      case RemoveStep(drive) =>
        RemoveBumps(w.manager, drive);
        RemoveKeepsStruct(w.manager, drive);
      case ApplyStep(drive, events, cursor) =>
        ApplyKeepsManagerOk(w.manager, drive, events, cursor);
      case CommitStep(drive, revision, view, cursor) =>
        CommitBumps(w.manager, drive, revision, view, cursor);
    }
  }

  lemma StepKeepsWorld(w: World, env: Env, step: Step)
    requires WorldOk(w, env) && StepOk(w, env, step)
    ensures WorldOk(After(w, env, step), env)
  {
    StepKeepsManager(w, env, step);
    match step {
      case Ask(query, limit, cancelled) =>
        QueryIsCoherent(w.session, w.manager, env, query, limit, cancelled);
      case Reset =>
      case InstallStep(drive, view, cursor) =>
        InstallBumps(w.manager, drive, view, cursor);
        ManagerStepKeepsCoherent(w.session, w.manager, Install(w.manager, drive, view, cursor), env);
      case RemoveStep(drive) =>
        RemoveBumps(w.manager, drive);
        ManagerStepKeepsCoherent(w.session, w.manager, Remove(w.manager, drive), env);
      case ApplyStep(drive, events, cursor) =>
        ApplyBumps(w.manager, drive, events, cursor);
        ManagerStepKeepsCoherent(w.session, w.manager, Apply(w.manager, drive, events, cursor), env);
      case CommitStep(drive, revision, view, cursor) =>
        CommitBumps(w.manager, drive, revision, view, cursor);
        ManagerStepKeepsCoherent(w.session, w.manager, Commit(w.manager, drive, revision, view, cursor).0, env);
    }
  }

  lemma RemoveKeepsStruct(m: Manager, drive: char)
    requires AllStructOk(m.indexes)
    ensures AllStructOk(Remove(m, drive).indexes)
  {
    var letter := UpperChar(drive);
    forall d | 0 <= d < |Retain(m.indexes, letter)| ensures StructOk(Retain(m.indexes, letter)[d].view) {
      var c := RetainFrom(m.indexes, letter, d);
    }
  }

  lemma InstallKeepsStruct(m: Manager, drive: char, view: View, cursor: UsnCursor)
    requires AllStructOk(m.indexes) && StructOk(view)
    ensures AllStructOk(Install(m, drive, view, cursor).indexes)
  {
    RemoveKeepsStruct(m, drive);
  }

  lemma {:induction false} RunKeepsWorld(w: World, env: Env, steps: seq<Step>)
    requires WorldOk(w, env) && RunOk(w, env, steps)
    ensures WorldOk(AfterAll(w, env, steps), env)
  {
    if steps != [] {
      RunKeepsWorld(w, env, steps[..|steps| - 1]);
      StepKeepsWorld(AfterAll(w, env, steps[..|steps| - 1]), env, steps[|steps| - 1]);
    }
  }

  /** Whatever is asked, cancelled or changed, the session stays within its memory bounds. */
  lemma {:induction false} RunKeepsMemory(w: World, env: Env, steps: seq<Step>)
    requires MemoryOk(w.session)
    ensures MemoryOk(AfterAll(w, env, steps).session)
  {
    if steps != [] {
      var before := AfterAll(w, env, steps[..|steps| - 1]);
      RunKeepsMemory(w, env, steps[..|steps| - 1]);
      match steps[|steps| - 1] {
        case Ask(query, limit, cancelled) =>
          QueryKeepsMemory(before.session, before.manager, env, query, limit, cancelled);
        case _ =>
      }
    }
  }

  /**
   From an empty cache, after any run of queries and manager changes, a query
   answers as an uncached search, as long as each query contains, both folded,
   the query whose snapshot it reuses.
   */
  lemma SessionCoherence(m: Manager, env: Env, steps: seq<Step>, query: string, limit: nat)
    requires FoldLaws(env.fold) && ManagerOk(m) && RunOk(World(EMPTY_SESSION, m), env, steps)
    requires CharCount(query) >= MIN_CACHED_QUERY_CHARS
    requires var w := AfterAll(World(EMPTY_SESSION, m), env, steps);
             ReusesContained(w.session, w.manager.generation, env, query)
    ensures var w := AfterAll(World(EMPTY_SESSION, m), env, steps);
            Query(w.session, w.manager, env, query, limit, false).1 == Uncached(w.manager, env, query, limit)
  {
    var w := AfterAll(World(EMPTY_SESSION, m), env, steps);
    RunKeepsWorld(World(EMPTY_SESSION, m), env, steps);
    QueryIsCoherent(w.session, w.manager, env, query, limit, false);
  }
}
