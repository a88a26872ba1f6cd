/** The loaded indexes, one per drive, and the searches across them (drive_manager.rs). */
module Drives {
  import opened Basics
  import opened Records
  import opened Paths
  import opened Overlay
  import opened Compaction
  import opened Matching
  import opened Search
  import opened Ranking
  import opened ShortQueries

  /** One loaded drive: its index, the journal position it stands for and its revision. */
  datatype DriveIndex = DriveIndex(letter: char, view: View, cursor: UsnCursor, revision: nat)

  datatype Manager = Manager(indexes: seq<DriveIndex>, generation: nat)

  const EMPTY_MANAGER := Manager([], 0)

  datatype DriveCandidateSet = DriveCandidateSet(drive: char, ids: seq<nat>)

  /** A captured snapshot, tagged with the revision and cursor it represents. */
  datatype CompactCandidate = CompactCandidate(
    drive: char, revision: nat, records: seq<CompactRecord>, cursor: UsnCursor)

  // ----- The manager's operations on values -----

  function Find(indexes: seq<DriveIndex>, letter: char): (found: Option<nat>)
    ensures found.Some? ==> found.value < |indexes| && indexes[found.value].letter == letter
    ensures found.None? ==> forall d :: 0 <= d < |indexes| ==> indexes[d].letter != letter
  {
    if indexes == [] then None
    else if indexes[0].letter == letter then Some(0)
    else match Find(indexes[1..], letter)
      case None => None
      case Some(d) => Some(d + 1)
  }

  function Retain(indexes: seq<DriveIndex>, letter: char): (kept: seq<DriveIndex>)
    ensures |kept| <= |indexes|
  {
    if indexes == [] then []
    else
      var init, last := indexes[..|indexes| - 1], indexes[|indexes| - 1];
      Retain(init, letter) + if last.letter != letter then [last] else []
  }

  function Remove(m: Manager, drive: char): Manager {
    var kept := Retain(m.indexes, UpperChar(drive));
    Manager(kept, if |kept| != |m.indexes| then m.generation + 1 else m.generation)
  }

  function Install(m: Manager, drive: char, view: View, cursor: UsnCursor): Manager {
    var letter := UpperChar(drive);
    Manager(Retain(m.indexes, letter) + [DriveIndex(letter, view, cursor, 0)], m.generation + 1)
  }

  /** An empty batch moves the cursor but neither the revision nor the generation. */
  function Apply(m: Manager, drive: char, events: seq<UsnEvent>, cursor: UsnCursor): Manager {
    match Find(m.indexes, UpperChar(drive))
    case None => m
    case Some(d) =>
      var entry := m.indexes[d];
      var bump := if events == [] then 0 else 1;
      Manager(
        m.indexes[d := entry.(view := ApplyEvents(entry.view, events), cursor := cursor, revision := entry.revision + bump)],
        m.generation + bump)
  }

  /** The delta reached five percent of the base records. */
  predicate ShouldCompact(v: View) {
    !v.delta.IsEmpty() && v.delta.EventCount() >= Max((BaseLen(v) + 19) / 20, 1)
  }

  function FirstCompactable(indexes: seq<DriveIndex>): (found: Option<nat>)
    ensures found.Some? ==> found.value < |indexes| && ShouldCompact(indexes[found.value].view)
  {
    if indexes == [] then None
    else if ShouldCompact(indexes[0].view) then Some(0)
    else match FirstCompactable(indexes[1..])
      case None => None
      case Some(d) => Some(d + 1)
  }

  function Capture(m: Manager): Option<CompactCandidate> {
    match FirstCompactable(m.indexes)
    case None => None
    case Some(d) =>
      var entry := m.indexes[d];
      Some(CompactCandidate(entry.letter, entry.revision, Snapshot(entry.view), entry.cursor))
  }

  /** Replace a drive only if its revision is the one that was captured. */
  function Commit(m: Manager, drive: char, revision: nat, view: View, cursor: UsnCursor): (Manager, bool) {
    match Find(m.indexes, UpperChar(drive))
    case None => (m, false)
    case Some(d) =>
      var entry := m.indexes[d];
      if entry.revision != revision then (m, false)
      else
        (Manager(m.indexes[d := DriveIndex(entry.letter, view, cursor, revision + 1)], m.generation + 1), true)
  }

  /** A compaction is due exactly when the overlay has an entry for every twenty base records, and at least one. */
  lemma DueIffFivePercent(v: View)
    ensures var entries := |v.delta.inserted| + |v.delta.renamed| + |v.delta.moved| + |v.delta.deleted|;
            ShouldCompact(v) <==> entries >= 1 && 20 * entries >= |v.base.records|
  {
    if v.delta.IsEmpty() { assert v.delta.EventCount() == 0; }
  }

  /** What is captured is the first drive whose compaction is due, with its revision and cursor. */
  lemma CapturesFirstDue(m: Manager, d: nat)
    requires d < |m.indexes| && ShouldCompact(m.indexes[d].view)
    requires forall c :: 0 <= c < d ==> !ShouldCompact(m.indexes[c].view)
    ensures var e := m.indexes[d];
            Capture(m) == Some(CompactCandidate(e.letter, e.revision, Snapshot(e.view), e.cursor))
  {
    FirstDue(m.indexes, d);
  }

  lemma {:induction false} FirstDue(indexes: seq<DriveIndex>, d: nat)
    requires d < |indexes| && ShouldCompact(indexes[d].view)
    requires forall c :: 0 <= c < d ==> !ShouldCompact(indexes[c].view)
    ensures FirstCompactable(indexes) == Some(d)
  {
    if d > 0 {
      FirstDue(indexes[1..], d - 1);
    }
  }

  // ----- Searching all drives -----

  function IdsFor(sets: seq<DriveCandidateSet>, drive: char): Option<seq<nat>> {
    if sets == [] then None
    else if sets[0].drive == drive then Some(sets[0].ids)
    else IdsFor(sets[1..], drive)
  }

  function SourceIds(source: Option<seq<DriveCandidateSet>>, drive: char): Option<seq<nat>> {
    match source case None => None case Some(sets) => IdsFor(sets, drive)
  }

  /** Accumulators of the scan over drives. */
  datatype DriveScan = DriveScan(results: seq<SearchResult>, drives: Option<seq<DriveCandidateSet>>, remaining: nat)

  function AddDrive(scan: DriveScan, drive: char, found: CandidateSearch): DriveScan {
    var results := scan.results + found.results;
    match (scan.drives, found.candidateIds)
    case (Some(sets), Some(ids)) =>
      DriveScan(results, Some(sets + [DriveCandidateSet(drive, ids)]),
                if scan.remaining < |ids| then 0 else scan.remaining - |ids|)
    case (_, None) => DriveScan(results, None, scan.remaining)
    case (None, Some(_)) => DriveScan(results, None, scan.remaining)
  }

  function ScanDrives(indexes: seq<DriveIndex>, env: Env, query: string, source: Option<seq<DriveCandidateSet>>,
                      limit: nat, budget: nat): DriveScan
  {
    if indexes == [] then DriveScan([], Some([]), budget)
    else
      var scan := ScanDrives(indexes[..|indexes| - 1], env, query, source, limit, budget);
      var entry := indexes[|indexes| - 1];
      AddDrive(scan, entry.letter,
               SearchCandidates(entry.view, env, query, SourceIds(source, entry.letter), limit, scan.remaining))
  }

  datatype CandidateOutput = CandidateOutput(results: seq<SearchResult>, drives: Option<seq<DriveCandidateSet>>)

  function SearchAll(m: Manager, env: Env, query: string, source: Option<seq<DriveCandidateSet>>,
                     limit: nat, budget: nat): CandidateOutput
  {
    var scan := ScanDrives(m.indexes, env, query, source, limit, budget);
    CandidateOutput(RankAndLimit(env, scan.results, limit), scan.drives)
  }

  /** The search of each drive, one list after the other. */
  function DirectResults(indexes: seq<DriveIndex>, env: Env, query: string, limit: nat): seq<SearchResult> {
    if indexes == [] then []
    else
      DirectResults(indexes[..|indexes| - 1], env, query, limit) +
      SearchIndex(indexes[|indexes| - 1].view, env, query, limit)
  }

  function SearchAllDirect(m: Manager, env: Env, query: string, limit: nat): seq<SearchResult> {
    RankAndLimit(env, DirectResults(m.indexes, env, query, limit), limit)
  }

  // ----- The manager object -----

  class DriveManager {
    var indexes: seq<DriveIndex>
    var generation: nat

    function State(): Manager
      reads this
    {
      Manager(indexes, generation)
    }

    constructor ()
      ensures State() == EMPTY_MANAGER
    {
      indexes, generation := [], 0;
    }

    method RemoveDrive(drive: char)
      modifies this
      ensures State() == Remove(old(State()), drive)
    {
      var oldLen := |indexes|;
      indexes := Retain(indexes, UpperChar(drive));
      if |indexes| != oldLen { generation := generation + 1; }
    }

    method InstallDrive(drive: char, view: View, cursor: UsnCursor)
      modifies this
      ensures State() == Install(old(State()), drive, view, cursor)
    {
      var letter := UpperChar(drive);
      indexes := Retain(indexes, letter);
      indexes := indexes + [DriveIndex(letter, view, cursor, 0)];
      generation := generation + 1;
    }

    method ApplyBatch(drive: char, events: seq<UsnEvent>, cursor: UsnCursor)
      modifies this
      ensures State() == Apply(old(State()), drive, events, cursor)
    {
      var found := Find(indexes, UpperChar(drive));
      if found.Some? {
        var entry := indexes[found.value];
        entry := entry.(view := ApplyEvents(entry.view, events), cursor := cursor);
        if events != [] {
          entry := entry.(revision := entry.revision + 1);
          generation := generation + 1;
        }
        indexes := indexes[found.value := entry];
      }
    }

    method CommitCompact(drive: char, revision: nat, view: View, cursor: UsnCursor) returns (committed: bool)
      modifies this
      ensures (State(), committed) == Commit(old(State()), drive, revision, view, cursor)
    {
      var found := Find(indexes, UpperChar(drive));
      if found.None? { return false; }
      var entry := indexes[found.value];
      if entry.revision != revision { return false; }
      indexes := indexes[found.value := DriveIndex(entry.letter, view, cursor, entry.revision + 1)];
      generation := generation + 1;
      return true;
    }

    method Search(env: Env, query: string, limit: nat) returns (out: seq<SearchResult>)
      ensures out == SearchAllDirect(State(), env, query, limit)
    {
      var results: seq<SearchResult> := [];
      for d := 0 to |indexes|
        invariant results == DirectResults(indexes[..d], env, query, limit)
      {
        assert indexes[..d + 1][..d] == indexes[..d];
        results := results + SearchIndex(indexes[d].view, env, query, limit);
      }
      assert indexes[..|indexes|] == indexes;
      out := RankAndLimit(env, results, limit);
    }

    method SearchCandidateSets(env: Env, query: string, source: Option<seq<DriveCandidateSet>>, limit: nat, budget: nat)
      returns (out: CandidateOutput)
      ensures out == SearchAll(State(), env, query, source, limit, budget)
    {
      var results: seq<SearchResult> := [];
      var drives: Option<seq<DriveCandidateSet>> := Some([]);
      var remaining: nat := budget;
      for d := 0 to |indexes|
        invariant DriveScan(results, drives, remaining) == ScanDrives(indexes[..d], env, query, source, limit, budget)
      {
        assert indexes[..d + 1][..d] == indexes[..d];
        var entry := indexes[d];
        var found := SearchCandidates(entry.view, env, query, SourceIds(source, entry.letter), limit, remaining);
        results := results + found.results;
        if drives.Some? && found.candidateIds.Some? {
          var ids := found.candidateIds.value;
          drives := Some(drives.value + [DriveCandidateSet(entry.letter, ids)]);
          remaining := if remaining < |ids| then 0 else remaining - |ids|;
        } else {
          drives := None;
        }
      }
      assert indexes[..|indexes|] == indexes;
      out := CandidateOutput(RankAndLimit(env, results, limit), drives);
    }
  }

  // ----- Letters and content -----

  ghost predicate UniqueLetters(indexes: seq<DriveIndex>) {
    forall c, d :: 0 <= c < d < |indexes| ==> indexes[c].letter != indexes[d].letter
  }

  lemma {:induction false} RetainFrom(indexes: seq<DriveIndex>, letter: char, d: nat) returns (c: nat)
    requires d < |Retain(indexes, letter)|
    ensures c < |indexes| && indexes[c] == Retain(indexes, letter)[d] && indexes[c].letter != letter
  {
    var last := |indexes| - 1;
    if d < |Retain(indexes[..last], letter)| {
      c := RetainFrom(indexes[..last], letter, d);
    } else {
      c := last;
    }
  }

  lemma {:induction false} RetainKeepsUnique(indexes: seq<DriveIndex>, letter: char)
    requires UniqueLetters(indexes)
    ensures UniqueLetters(Retain(indexes, letter))
  {
    if indexes != [] {
      var last := |indexes| - 1;
      RetainKeepsUnique(indexes[..last], letter);
      forall d | 0 <= d < |Retain(indexes[..last], letter)|
        ensures Retain(indexes[..last], letter)[d].letter != indexes[last].letter
      {
        var c := RetainFrom(indexes[..last], letter, d);
      }
    }
  }

  lemma {:induction false} RetainAll(indexes: seq<DriveIndex>, letter: char)
    requires |Retain(indexes, letter)| == |indexes|
    ensures Retain(indexes, letter) == indexes
  {
    if indexes != [] {
      RetainAll(indexes[..|indexes| - 1], letter);
    }
  }

  // ----- The manager as a map from letters to drives -----

  function EntryFor(m: Manager, letter: char): (entry: Option<DriveIndex>)
    ensures entry.Some? ==> entry.value in m.indexes && entry.value.letter == letter
    ensures entry.None? ==> forall e :: e in m.indexes ==> e.letter != letter
  {
    match Find(m.indexes, letter)
    case None => None
    case Some(d) => Some(m.indexes[d])
  }

  lemma EntryIs(m: Manager, d: nat)
    requires UniqueLetters(m.indexes) && d < |m.indexes|
    ensures EntryFor(m, m.indexes[d].letter) == Some(m.indexes[d])
    ensures Find(m.indexes, m.indexes[d].letter) == Some(d)
  {}

  lemma {:induction false} RetainKeeps(indexes: seq<DriveIndex>, letter: char, c: nat)
    requires c < |indexes| && indexes[c].letter != letter
    ensures indexes[c] in Retain(indexes, letter)
  {
    if c < |indexes| - 1 {
      RetainKeeps(indexes[..|indexes| - 1], letter, c);
    }
  }

  lemma EntryAfterRemove(m: Manager, drive: char, x: char)
    requires UniqueLetters(m.indexes)
    ensures EntryFor(Remove(m, drive), x) == if x == UpperChar(drive) then None else EntryFor(m, x)
  {
    var letter := UpperChar(drive);
    RetainKeepsUnique(m.indexes, letter);
    var after := Remove(m, drive);
    if EntryFor(after, x).Some? {
      var d :| 0 <= d < |after.indexes| && after.indexes[d] == EntryFor(after, x).value;
      var c := RetainFrom(m.indexes, letter, d);
      EntryIs(m, c);
    } else if x != letter && EntryFor(m, x).Some? {
      var c :| 0 <= c < |m.indexes| && m.indexes[c] == EntryFor(m, x).value;
      RetainKeeps(m.indexes, letter, c);
    }
  }

  lemma EntryAfterInstall(m: Manager, drive: char, view: View, cursor: UsnCursor, x: char)
    requires UniqueLetters(m.indexes)
    ensures EntryFor(Install(m, drive, view, cursor), x) ==
            if x == UpperChar(drive) then Some(DriveIndex(x, view, cursor, 0)) else EntryFor(m, x)
  {
    var letter := UpperChar(drive);
    var kept := Retain(m.indexes, letter);
    var after := Install(m, drive, view, cursor);
    InstallBumps(m, drive, view, cursor);
    EntryAfterRemove(m, drive, x);
    EntryIs(after, |kept|);
    if EntryFor(after, x).Some? && x != letter {
      var d :| 0 <= d < |after.indexes| && after.indexes[d] == EntryFor(after, x).value;
      var c := RetainFrom(m.indexes, letter, d);
      EntryIs(m, c);
    }
  }

  lemma {:induction false} FindAfterUpdate(indexes: seq<DriveIndex>, d: nat, entry: DriveIndex, x: char)
    requires d < |indexes| && entry.letter == indexes[d].letter
    ensures Find(indexes[d := entry], x) == Find(indexes, x)
  {
    if indexes[0].letter != x {
      if d == 0 {
        assert indexes[0 := entry][1..] == indexes[1..];
      } else {
        assert indexes[d := entry][1..] == indexes[1..][d - 1 := entry];
        FindAfterUpdate(indexes[1..], d - 1, entry, x);
      }
    }
  }

  lemma EntryAfterApply(m: Manager, drive: char, events: seq<UsnEvent>, cursor: UsnCursor, x: char)
    ensures EntryFor(Apply(m, drive, events, cursor), x) ==
            if x == UpperChar(drive) && EntryFor(m, x).Some? then
              var e := EntryFor(m, x).value;
              Some(DriveIndex(x, ApplyEvents(e.view, events), cursor, e.revision + if events == [] then 0 else 1))
            else EntryFor(m, x)
  {
    var found := Find(m.indexes, UpperChar(drive));
    if found.Some? {
      FindAfterUpdate(m.indexes, found.value, Apply(m, drive, events, cursor).indexes[found.value], x);
    }
  }

  lemma EntryAfterCommit(m: Manager, drive: char, revision: nat, view: View, cursor: UsnCursor, x: char)
    ensures EntryFor(Commit(m, drive, revision, view, cursor).0, x) ==
            if x == UpperChar(drive) && EntryFor(m, x).Some? && EntryFor(m, x).value.revision == revision
            then Some(DriveIndex(x, view, cursor, revision + 1))
            else EntryFor(m, x)
  {
    var found := Find(m.indexes, UpperChar(drive));
    if found.Some? && m.indexes[found.value].revision == revision {
      FindAfterUpdate(m.indexes, found.value, DriveIndex(m.indexes[found.value].letter, view, cursor, revision + 1), x);
    }
  }

  // ----- Content -----

  /** Two lists of drives show the same records under the same letters. */
  ghost predicate SameContent(a: seq<DriveIndex>, b: seq<DriveIndex>) {
    |a| == |b| && forall d :: 0 <= d < |a| ==> a[d].letter == b[d].letter && a[d].view == b[d].view
  }

  /** The generation moved on, or nothing that a search can see has changed. */
  ghost predicate BumpsOnChange(m: Manager, after: Manager) {
    m.generation < after.generation || (m.generation == after.generation && SameContent(m.indexes, after.indexes))
  }

  lemma RemoveBumps(m: Manager, drive: char)
    requires UniqueLetters(m.indexes)
    ensures BumpsOnChange(m, Remove(m, drive)) && UniqueLetters(Remove(m, drive).indexes)
  {
    var letter := UpperChar(drive);
    RetainKeepsUnique(m.indexes, letter);
    if |Retain(m.indexes, letter)| == |m.indexes| { RetainAll(m.indexes, letter); }
  }

  lemma InstallBumps(m: Manager, drive: char, view: View, cursor: UsnCursor)
    requires UniqueLetters(m.indexes)
    ensures BumpsOnChange(m, Install(m, drive, view, cursor)) && UniqueLetters(Install(m, drive, view, cursor).indexes)
  {
    var letter := UpperChar(drive);
    RetainKeepsUnique(m.indexes, letter);
    forall d | 0 <= d < |Retain(m.indexes, letter)| ensures Retain(m.indexes, letter)[d].letter != letter {
      var c := RetainFrom(m.indexes, letter, d);
    }
  }

  lemma ApplyBumps(m: Manager, drive: char, events: seq<UsnEvent>, cursor: UsnCursor)
    requires UniqueLetters(m.indexes)
    ensures BumpsOnChange(m, Apply(m, drive, events, cursor)) && UniqueLetters(Apply(m, drive, events, cursor).indexes)
  {}

  lemma CommitBumps(m: Manager, drive: char, revision: nat, view: View, cursor: UsnCursor)
    requires UniqueLetters(m.indexes)
    ensures BumpsOnChange(m, Commit(m, drive, revision, view, cursor).0)
    ensures UniqueLetters(Commit(m, drive, revision, view, cursor).0.indexes)
  {}

  // ----- Complete candidate sets -----

  /** The complete candidate sets of a folded query, drive by drive. */
  function CompleteSets(indexes: seq<DriveIndex>, env: Env, folded: string): (sets: seq<DriveCandidateSet>)
    ensures |sets| == |indexes|
  {
    if indexes == [] then []
    else
      var entry := indexes[|indexes| - 1];
      CompleteSets(indexes[..|indexes| - 1], env, folded) +
      [DriveCandidateSet(entry.letter, Indices(ScannedMatches(entry.view, env, folded)))]
  }

  lemma {:induction false} CompleteSetsAt(indexes: seq<DriveIndex>, env: Env, folded: string, d: nat)
    requires d < |indexes|
    ensures CompleteSets(indexes, env, folded)[d] ==
            DriveCandidateSet(indexes[d].letter, Indices(ScannedMatches(indexes[d].view, env, folded)))
  {
    if d < |indexes| - 1 {
      CompleteSetsAt(indexes[..|indexes| - 1], env, folded, d);
    }
  }

  lemma CompleteSetsDependOnContent(a: seq<DriveIndex>, b: seq<DriveIndex>, env: Env, folded: string)
    requires SameContent(a, b)
    ensures CompleteSets(a, env, folded) == CompleteSets(b, env, folded)
  {
    forall d | 0 <= d < |a| ensures CompleteSets(a, env, folded)[d] == CompleteSets(b, env, folded)[d] {
      CompleteSetsAt(a, env, folded, d);
      CompleteSetsAt(b, env, folded, d);
    }
  }

  lemma {:induction false} SourceIdsAt(sets: seq<DriveCandidateSet>, d: nat)
    requires d < |sets| && forall c :: 0 <= c < d ==> sets[c].drive != sets[d].drive
    ensures IdsFor(sets, sets[d].drive) == Some(sets[d].ids)
    decreases |sets|
  {
    if d > 0 {
      SourceIdsAt(sets[1..], d - 1);
    }
  }

  /** Each drive finds its own complete set. */
  lemma CompleteSource(indexes: seq<DriveIndex>, env: Env, folded: string, d: nat)
    requires UniqueLetters(indexes) && d < |indexes|
    ensures SourceIds(Some(CompleteSets(indexes, env, folded)), indexes[d].letter) ==
            Some(Indices(ScannedMatches(indexes[d].view, env, folded)))
  {
    var sets := CompleteSets(indexes, env, folded);
    forall c | 0 <= c <= d ensures sets[c].drive == indexes[c].letter {
      CompleteSetsAt(indexes, env, folded, c);
    }
    CompleteSetsAt(indexes, env, folded, d);
    SourceIdsAt(sets, d);
  }

  /** A scan over drives that kept its candidates kept all of them. */
  lemma {:induction false} ScanCollectsCompleteSets(indexes: seq<DriveIndex>, env: Env, query: string, limit: nat, budget: nat)
    requires ScanDrives(indexes, env, query, None, limit, budget).drives.Some?
    ensures ScanDrives(indexes, env, query, None, limit, budget).drives ==
            Some(CompleteSets(indexes, env, env.fold(query)))
  {
    if indexes != [] {
      ScanCollectsCompleteSets(indexes[..|indexes| - 1], env, query, limit, budget);
    }
  }

  ghost predicate AllStructOk(indexes: seq<DriveIndex>) {
    forall d :: 0 <= d < |indexes| ==> StructOk(indexes[d].view)
  }

  /** Refining complete sets of a query that is being narrowed gives the same scan, drive by drive. */
  lemma {:induction false} ScanRefinementIsFull(all: seq<DriveIndex>, env: Env, broad: string, narrow: string,
                                                limit: nat, budget: nat, k: nat)
    requires UniqueLetters(all) && AllStructOk(all) && Narrows(env.fold, broad, narrow) && k <= |all|
    ensures ScanDrives(all[..k], env, narrow, Some(CompleteSets(all, env, env.fold(broad))), limit, budget) ==
            ScanDrives(all[..k], env, narrow, None, limit, budget)
  {
    if k > 0 {
      ScanRefinementIsFull(all, env, broad, narrow, limit, budget, k - 1);
      assert all[..k][..k - 1] == all[..k - 1];
      CompleteSource(all, env, env.fold(broad), k - 1);
      var remaining := ScanDrives(all[..k - 1], env, narrow, None, limit, budget).remaining;
      RefinementIsFullScan(all[k - 1].view, env, broad, narrow, limit, remaining);
    }
  }

  lemma SearchRefinementIsFull(m: Manager, env: Env, broad: string, narrow: string, limit: nat, budget: nat)
    requires UniqueLetters(m.indexes) && AllStructOk(m.indexes) && Narrows(env.fold, broad, narrow)
    ensures SearchAll(m, env, narrow, Some(CompleteSets(m.indexes, env, env.fold(broad))), limit, budget) ==
            SearchAll(m, env, narrow, None, limit, budget)
  {
    ScanRefinementIsFull(m.indexes, env, broad, narrow, limit, budget, |m.indexes|);
    assert m.indexes[..|m.indexes|] == m.indexes;
  }
}
