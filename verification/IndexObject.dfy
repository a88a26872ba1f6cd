/**
 The index as the program runs it: an immutable base beside an overlay object
 that events change in place, and queries that loop (index.rs, delta.rs). Each
 method is tied to the operation on values that the theorems are about.
 */
module IndexObject {
  import opened Basics
  import opened Records
  import opened Paths
  import opened Overlay
  import opened Compaction
  import opened Matching
  import opened TopScores
  import opened Search
  import opened ShortQueries
  import opened PathLookup
  import opened Enumeration

  class EsDeltaOverlay {
    var inserted: seq<InsertedRecord>
    var renamed: map<nat, string>
    var moved: map<nat, nat>
    var deleted: set<nat>
    var refOverrides: map<nat, Option<nat>>

    function Value(): Delta
      reads this
    {
      Delta(inserted, renamed, moved, deleted, refOverrides)
    }

    constructor ()
      ensures Value() == EMPTY_DELTA
    {
      inserted, renamed, moved, deleted, refOverrides := [], map[], map[], {}, map[];
    }
  }

  class EsIndex {
    const base: Base
    const delta: EsDeltaOverlay

    function State(): View
      reads delta
    {
      View(base, delta.Value())
    }

    constructor (base: Base)
      ensures this.base == base && fresh(delta) && State() == View(base, EMPTY_DELTA)
    {
      this.base := base;
      delta := new EsDeltaOverlay();
    }

    // ----- Events -----

    method ApplyDelete(fileRef: FileRef)
      modifies delta
      ensures State() == Overlay.ApplyDelete(old(State()), fileRef)
    {
      var found := RefLookup(State(), fileRef);
      if found.Some? {
        delta.deleted := delta.deleted + {found.value};
        delta.refOverrides := delta.refOverrides[MftRecordNumber(fileRef) := None];
      }
    }

    method ApplyCreate(e: UsnEvent)
      modifies delta
      ensures State() == Overlay.ApplyCreate(old(State()), e)
    {
      if e.name.None? || e.name.value == "" { return; }
      var logical := LogicalLen(State());
      delta.inserted := delta.inserted + [NewRecord(e)];
      delta.deleted := delta.deleted - {logical};
      delta.refOverrides := delta.refOverrides[MftRecordNumber(e.fileRef) := Some(logical)];
    }

    method SetName(index: nat, name: string)
      modifies delta
      ensures State() == SetLogicalName(old(State()), index, name)
    {
      if index < |base.records| {
        delta.renamed := delta.renamed[index := name];
      } else {
        var pos := index - |base.records|;
        if pos < |delta.inserted| {
          delta.inserted := delta.inserted[pos := delta.inserted[pos].(name := name)];
        }
      }
    }

    method SetParent(index: nat, parent: nat)
      modifies delta
      ensures State() == SetLogicalParent(old(State()), index, parent)
    {
      delta.moved := delta.moved[index := parent];
    }

    method ApplyRenameMove(e: UsnEvent)
      modifies delta
      ensures State() == Overlay.ApplyRenameMove(old(State()), e)
    {
      var found := RefLookup(State(), e.fileRef);
      if found.None? {
        ApplyCreate(e);
        return;
      }
      if e.name.Some? && e.name.value != "" { SetName(found.value, e.name.value); }
      if e.parentRef.Some? {
        var parent := RefLookup(State(), e.parentRef.value);
        if parent.Some? { SetParent(found.value, parent.value); }
      }
    }

    method ApplyEvents(events: seq<UsnEvent>)
      modifies delta
      ensures State() == Overlay.ApplyEvents(old(State()), events)
    {
      for k := 0 to |events|
        invariant State() == Overlay.ApplyEvents(old(State()), events[..k])
      {
        assert events[..k + 1][..k] == events[..k];
        match events[k].kind {
          case Delete => ApplyDelete(events[k].fileRef);
          case Create => ApplyCreate(events[k]);
          case Rename => ApplyRenameMove(events[k]);
          case Move => ApplyRenameMove(events[k]);
          case Metadata =>
        }
      }
      assert events[..|events|] == events;
    }

    // ----- Children: three loops -----

    method KeepBaseChildren(index: nat) returns (kids: seq<nat>)
      ensures kids == BaseKids(State(), index)
    {
      kids := [];
      if index < |base.records| {
        var listed := BaseChildren(base, index);
        if listed.Ok? {
          var children := listed.value;
          for k := 0 to |children|
            invariant kids == FilterBaseChildren(State(), index, children[..k])
          {
            assert children[..k + 1][..k] == children[..k];
            var child := children[k];
            if child in delta.deleted { continue; }
            if child in delta.moved && delta.moved[child] != index { continue; }
            kids := kids + [child];
          }
          assert children[..|children|] == children;
        }
      }
    }

    /** Moves in key order, skipping those the base already lists. */
    method AddMovedChildren(index: nat) returns (kids: seq<nat>)
      ensures kids == MovedKids(State(), index)
    {
      kids := [];
      ghost var keep := MovedTo(State(), index);
      for child := 0 to LogicalLen(State())
        invariant kids == Select(0, child, keep)
      {
        SelectSnoc(0, child, keep);
        if child !in delta.moved || delta.moved[child] != index || child in delta.deleted { continue; }
        if child < |base.records| && base.records[child].parentIdx == index { continue; }
        kids := kids + [child];
      }
    }

    method AddInsertedChildren(index: nat) returns (kids: seq<nat>)
      ensures kids == InsertedKids(State(), index)
    {
      kids := [];
      ghost var keep := InsertedUnder(State(), index);
      for pos := 0 to |delta.inserted|
        invariant kids == Select(|base.records|, |base.records| + pos, keep)
      {
        var logical := |base.records| + pos;
        SelectSnoc(|base.records|, logical, keep);
        if logical in delta.deleted { continue; }
        if LogicalParent(State(), logical) == Some(index) { kids := kids + [logical]; }
      }
    }

    method Children(index: nat) returns (kids: seq<nat>)
      ensures kids == LogicalChildren(State(), index)
    {
      kids := KeepBaseChildren(index);
      var moved := AddMovedChildren(index);
      var inserted := AddInsertedChildren(index);
      kids := kids + moved + inserted;
    }

    // ----- Paths -----

    /** Walk up until a root is met, for at most one step more than there are records. */
    method Path(index: nat) returns (path: Result<string, EsError>)
      ensures path == LogicalPath(State(), index)
    {
      var parts: seq<string> := [];
      var current := index;
      var remaining: nat := LogicalLen(State()) + 1;
      BehindNothing(NamesUp(State(), index, index, remaining));
      while remaining > 0
        invariant NamesUp(State(), index, index, LogicalLen(State()) + 1) ==
                  Behind(parts, NamesUp(State(), index, current, remaining))
      {
        var name := LogicalName(State(), current);
        if name.None? { return Err(RecordIndexOutOfRange(current)); }
        var parent := LogicalParent(State(), current);
        BehindStep(State(), index, current, remaining, parts);
        parts := parts + [name.value];
        if parent.None? { return Ok(PathOf(parts)); }
        current := parent.value;
        remaining := remaining - 1;
      }
      return Err(ParentCycle(index));
    }

    // ----- Snapshot -----

    method TakeSnapshot() returns (records: seq<CompactRecord>)
      ensures records == Snapshot(State())
    {
      records := [];
      ghost var live: seq<nat> := [];
      for index := 0 to LogicalLen(State())
        invariant live == Select(0, index, IsLive(State()))
        invariant records == SnapshotOf(State(), live)
      {
        SelectSnoc(0, index, IsLive(State()));
        if LogicalIsDeleted(State(), index) { continue; }
        assert (live + [index])[..|live|] == live;
        live := live + [index];
        records := records + [CompactRecordAt(State(), index)];
      }
    }

    // ----- Search -----

    /** Visit the listed records, or all in index order; the complete matches survive only within the budget. */
    method SearchCandidateIds(env: Env, query: string, source: Option<seq<nat>>, limit: nat, budget: nat)
      returns (out: CandidateSearch)
      ensures out == SearchCandidates(State(), env, query, source, limit, budget)
    {
      var folded := env.fold(query);
      if limit == 0 || folded == "" { return CandidateSearch([], None); }
      var scored: seq<Scored>, ids: Option<seq<nat>>;
      match source {
        case Some(listed) => scored, ids := ScanListed(env, folded, listed, 2 * limit, budget);
        case None => scored, ids := ScanAll(env, folded, 2 * limit, budget);
      }
      return CandidateSearch(Materialize(State(), env, scored, limit), ids);
    }

    method ScanListed(env: Env, folded: string, listed: seq<nat>, cap: nat, budget: nat)
      returns (scored: seq<Scored>, ids: Option<seq<nat>>)
      ensures Collected(scored, ids, ListedMatches(State(), env, folded, listed), cap, budget)
    {
      scored, ids := [], Some([]);
      ghost var find := ListedMatcher(State(), env, folded);
      for k := 0 to |listed|
        invariant Collected(scored, ids, Collect(listed[..k], find), cap, budget)
      {
        assert listed[..k + 1][..k] == listed[..k];
        var found := MatchOf(env, folded, listed[k], VisitListed(State(), listed[k]));
        scored, ids := AddMatch(scored, ids, found, cap, budget, Collect(listed[..k], find));
      }
      assert listed[..|listed|] == listed;
    }

    method ScanAll(env: Env, folded: string, cap: nat, budget: nat)
      returns (scored: seq<Scored>, ids: Option<seq<nat>>)
      ensures Collected(scored, ids, ScannedMatches(State(), env, folded), cap, budget)
    {
      scored, ids := [], Some([]);
      ghost var find := ScannedMatcher(State(), env, folded);
      for i := 0 to LogicalLen(State())
        invariant Collected(scored, ids, CollectRange(0, i, find), cap, budget)
      {
        var found := MatchOf(env, folded, i, VisitScanned(State(), i));
        scored, ids := AddMatch(scored, ids, found, cap, budget, CollectRange(0, i, find));
      }
    }

    /** The search without candidates: the first records, the proposed ones, or all. */
    method Search(env: Env, query: string, limit: nat) returns (results: seq<SearchResult>)
      ensures results == SearchIndex(State(), env, query, limit)
    {
      var folded := env.fold(query);
      if limit == 0 { return []; }
      var scored;
      if folded == "" {
        scored := FirstRecords(limit);
      } else if CharCount(folded) <= SHORT_QUERY_CHARS {
        var listed := CandidatesOf(BucketsOf(base, env.fold), folded);
        scored := MatchListed(env, folded, listed);
        scored := ScanInserted(env, folded, scored);
      } else {
        scored := ScanBase(env, folded, 2 * limit);
        scored := ScanInserted(env, folded, scored);
      }
      return Materialize(State(), env, scored, limit);
    }

    method FirstRecords(limit: nat) returns (scored: seq<Scored>)
      requires limit > 0
      ensures scored == FirstLive(State(), LogicalLen(State()), limit)
    {
      scored := [];
      for index := 0 to LogicalLen(State())
        invariant scored == FirstLive(State(), index, limit) && |scored| < limit
      {
        if LogicalIsDeleted(State(), index) { continue; }
        scored := scored + [Scored(DirectoryBonus(LogicalIsDir(State(), index)), [], index)];
        if |scored| >= limit {
          FirstLiveStops(State(), index + 1, LogicalLen(State()), limit);
          return;
        }
      }
    }

    method MatchListed(env: Env, folded: string, listed: seq<nat>) returns (scored: seq<Scored>)
      ensures scored == ListedMatches(State(), env, folded, listed)
    {
      scored := [];
      ghost var find := ListedMatcher(State(), env, folded);
      for k := 0 to |listed|
        invariant scored == Collect(listed[..k], find)
      {
        assert listed[..k + 1][..k] == listed[..k];
        scored := scored + OneIfSome(MatchOf(env, folded, listed[k], VisitListed(State(), listed[k])));
      }
      assert listed[..|listed|] == listed;
    }

    method ScanBase(env: Env, folded: string, cap: nat) returns (scored: seq<Scored>)
      ensures scored == TopN(CollectRange(0, BaseLen(State()), ScannedMatcher(State(), env, folded)), cap)
    {
      scored := [];
      ghost var find := ScannedMatcher(State(), env, folded);
      for i := 0 to BaseLen(State())
        invariant scored == TopN(CollectRange(0, i, find), cap)
      {
        var found := MatchOf(env, folded, i, VisitScanned(State(), i));
        TopNStep(CollectRange(0, i, find), found, cap);
        if found.Some? { scored := InsertTopN(scored, found.value, cap); }
      }
    }

    /** Overlay matches are appended without a bound. */
    method ScanInserted(env: Env, folded: string, before: seq<Scored>) returns (scored: seq<Scored>)
      ensures scored ==
              before + CollectRange(BaseLen(State()), LogicalLen(State()), ListedMatcher(State(), env, folded))
    {
      scored := before;
      ghost var find := ListedMatcher(State(), env, folded);
      for i := BaseLen(State()) to LogicalLen(State())
        invariant scored == before + CollectRange(BaseLen(State()), i, find)
      {
        var found := MatchOf(env, folded, i, VisitListed(State(), i));
        Regrouped(before, CollectRange(BaseLen(State()), i, find), OneIfSome(found));
        scored := scored + OneIfSome(found);
      }
    }

    // ----- Listing directories -----

    /** The stack loop of the recursive listing. */
    method ListBelow(root: nat) returns (collected: seq<nat>)
      requires StructOk(State()) && UnderRoot(State(), root)
      ensures collected == Descendants(State(), root)
    {
      collected := [];
      ChildrenUnderRoot(State(), root);
      var stack := Children(root);
      while stack != []
        invariant AllUnderRoot(State(), stack)
        invariant Descendants(State(), root) == collected + Drain(State(), stack)
        decreases StackVisits(State(), stack)
      {
        var child := stack[|stack| - 1];
        DrainStep(State(), stack, collected);
        collected := collected + [child];
        var kids := [];
        if LogicalIsDir(State(), child) { kids := Children(child); }
        stack := stack[..|stack| - 1] + kids;
      }
    }

    // ----- Path lookup -----

    method FindRootRecord(fold: Fold, name: string) returns (root: Option<nat>)
      ensures root == FindRoot(State(), fold, name)
    {
      var five := RefLookup(State(), FileRef(0, ROOT_FRS));
      if five.Some? && RootMatches(State(), fold, five.value, name) { return five; }
      var index := 0;
      while index < LogicalLen(State())
        invariant index <= LogicalLen(State())
        invariant FindRoot(State(), fold, name) ==
                  FirstBetween(index, LogicalLen(State()), RootMatcher(State(), fold, name))
      {
        if RootMatches(State(), fold, index, name) { return Some(index); }
        index := index + 1;
      }
      return None;
    }

    method FindChildRecord(fold: Fold, parent: nat, name: string) returns (child: Option<nat>)
      ensures child == FindChild(State(), fold, parent, name)
    {
      var kids := Children(parent);
      child := FirstMatch(kids, ChildMatcher(State(), fold, name));
    }

    /** Descend one part at a time; the first part without a match ends the lookup. */
    method LookUp(fold: Fold, path: string) returns (found: Result<nat, EsError>)
      ensures found == Resolve(State(), fold, path)
    {
      var normalized := Normalize(path);
      var parts := Parts(normalized);
      if parts == [] { return Err(PathNotFound(normalized)); }
      var current := FindRootRecord(fold, parts[0]);
      WalkStarts(State(), fold, parts);
      for k := 1 to |parts|
        invariant current == Walk(State(), fold, parts[..k])
      {
        if current.None? {
          WalkStops(State(), fold, parts, k);
          return Err(PathNotFound(normalized));
        }
        WalkNext(State(), fold, parts, k);
        current := FindChildRecord(fold, current.value, parts[k]);
      }
      assert parts[..|parts|] == parts;
      if current.None? { return Err(PathNotFound(normalized)); }
      return Ok(current.value);
    }

    method ListResults(env: Env, folded: string, ids: seq<nat>) returns (results: Result<seq<SearchResult>, EsError>)
      ensures results == ListAll(State(), env, folded, ids)
    {
      var found: seq<SearchResult> := [];
      for k := 0 to |ids|
        invariant ListAll(State(), env, folded, ids[..k]) == Ok(found)
      {
        assert ids[..k + 1][..k] == ids[..k];
        var one := ListOne(State(), env, folded, ids[k]);
        if one.Err? {
          ListStops(State(), env, folded, ids, k + 1);
          return Err(one.error);
        }
        found := found + one.value;
      }
      assert ids[..|ids|] == ids;
      return Ok(found);
    }

    /** List a directory, or everything below it, ranked and cut to the limit. */
    method EnumeratePath(env: Env, path: string, query: string, recursive: bool, limit: nat)
      returns (results: Result<seq<SearchResult>, EsError>)
      requires StructOk(State())
      ensures results == Enumerate(State(), env, path, query, recursive, limit)
    {
      if limit == 0 { return Ok([]); }
      var root := LookUp(env.fold, path);
      if root.Err? { return Err(root.error); }
      ResolvedReachesRoot(State(), env.fold, path);
      var candidates: seq<nat>;
      if recursive { candidates := ListBelow(root.value); } else { candidates := Children(root.value); }
      var listed := ListResults(env, env.fold(query), candidates);
      if listed.Err? { return listed; }
      return Ok(Truncate(env.sortResults(listed.value), limit));
    }
  }

  // ----- Helpers of the loops -----

  method FirstMatch(s: seq<nat>, keep: nat -> bool) returns (found: Option<nat>)
    ensures found == FirstIn(s, keep)
  {
    var k := 0;
    assert s[0..] == s;
    while k < |s|
      invariant k <= |s| && FirstIn(s, keep) == FirstIn(s[k..], keep)
    {
      assert s[k..][1..] == s[k + 1..];
      if keep(s[k]) { return Some(s[k]); }
      k := k + 1;
    }
    return None;
  }

  /** A walk that has already passed some names. */
  function Behind(parts: seq<string>, rest: Result<seq<string>, EsError>): Result<seq<string>, EsError> {
    match rest case Ok(names) => Ok(parts + names) case Err(e) => Err(e)
  }

  lemma Regrouped(a: seq<Scored>, b: seq<Scored>, c: seq<Scored>)
    ensures (a + b) + c == a + (b + c)
  {}

  lemma {:induction false} FirstLiveStops(v: View, lo: nat, hi: nat, limit: nat)
    requires lo <= hi && |FirstLive(v, lo, limit)| >= limit
    ensures FirstLive(v, hi, limit) == FirstLive(v, lo, limit)
    decreases hi
  {
    if lo < hi {
      FirstLiveStops(v, lo, hi - 1, limit);
    }
  }

  lemma TopNStep(ms: seq<Scored>, found: Option<Scored>, cap: nat)
    ensures TopN(ms + OneIfSome(found), cap) ==
            if found.Some? then InsertTopN(TopN(ms, cap), found.value, cap) else TopN(ms, cap)
  {
    match found {
      case None => assert ms + [] == ms;
      case Some(m) => assert (ms + [m])[..|ms|] == ms;
    }
  }

  lemma WalkStarts(v: View, fold: Fold, parts: seq<string>)
    requires parts != []
    ensures Walk(v, fold, parts[..1]) == FindRoot(v, fold, parts[0])
  {
    assert parts[..1] == [parts[0]];
  }

  lemma WalkNext(v: View, fold: Fold, parts: seq<string>, k: nat)
    requires 0 < k < |parts| && Walk(v, fold, parts[..k]).Some?
    ensures Walk(v, fold, parts[..k + 1]) == FindChild(v, fold, Walk(v, fold, parts[..k]).value, parts[k])
  {
    assert parts[..k + 1][..k] == parts[..k];
  }

  lemma {:induction false} WalkStops(v: View, fold: Fold, parts: seq<string>, k: nat)
    requires 1 <= k <= |parts| && Walk(v, fold, parts[..k]).None?
    ensures Walk(v, fold, parts).None?
    decreases |parts|
  {
    if k == |parts| {
      assert parts[..k] == parts;
    } else {
      assert parts[..|parts| - 1][..k] == parts[..k];
      WalkStops(v, fold, parts[..|parts| - 1], k);
    }
  }

  lemma {:induction false} ListStops(v: View, env: Env, folded: string, ids: seq<nat>, k: nat)
    requires k <= |ids| && ListAll(v, env, folded, ids[..k]).Err?
    ensures ListAll(v, env, folded, ids) == ListAll(v, env, folded, ids[..k])
    decreases |ids|
  {
    if k == |ids| {
      assert ids[..k] == ids;
    } else {
      assert ids[..|ids| - 1][..k] == ids[..k];
      ListStops(v, env, folded, ids[..|ids| - 1], k);
    }
  }

  lemma DrainStep(v: View, stack: seq<nat>, collected: seq<nat>)
    requires StructOk(v) && AllUnderRoot(v, stack) && stack != []
    ensures var rest := stack[..|stack| - 1] + Expand(v, stack[|stack| - 1]);
            && AllUnderRoot(v, rest) && StackVisits(v, rest) < StackVisits(v, stack)
            && collected + Drain(v, stack) == (collected + [stack[|stack| - 1]]) + Drain(v, rest)
  {
    PopShrinks(v, stack);
  }

  lemma BehindNothing(walk: Result<seq<string>, EsError>)
    ensures Behind([], walk) == walk
  {
    match walk {
      case Ok(names) => assert [] + names == names;
      case Err(_) =>
    }
  }

  lemma BehindStep(v: View, index: nat, current: nat, remaining: nat, parts: seq<string>)
    requires remaining > 0 && LogicalName(v, current).Some?
    ensures Behind(parts, NamesUp(v, index, current, remaining)) ==
            match LogicalParent(v, current)
            case None => Ok(parts + [LogicalName(v, current).value])
            case Some(p) => Behind(parts + [LogicalName(v, current).value], NamesUp(v, index, p, remaining - 1))
  {
    if LogicalParent(v, current).Some? {
      match NamesUp(v, index, LogicalParent(v, current).value, remaining - 1) {
        case Ok(rest) =>
          var name := LogicalName(v, current).value;
          assert parts + ([name] + rest) == (parts + [name]) + rest;
        case Err(_) =>
      }
    }
  }

  /** What the scan loops have gathered once they have met the matches `ms`. */
  predicate Collected(scored: seq<Scored>, ids: Option<seq<nat>>, ms: seq<Scored>, cap: nat, budget: nat) {
    scored == TopN(ms, cap) && ids == if |ms| <= budget then Some(Indices(ms)) else None
  }

  /** Count one more finding: in the complete list while the budget lasts, and in the bounded best list. */
  method AddMatch(before: seq<Scored>, idsBefore: Option<seq<nat>>, found: Option<Scored>, cap: nat, budget: nat,
                  ghost ms: seq<Scored>)
    returns (scored: seq<Scored>, ids: Option<seq<nat>>)
    requires Collected(before, idsBefore, ms, cap, budget)
    ensures Collected(scored, ids, ms + OneIfSome(found), cap, budget)
  {
    scored, ids := before, idsBefore;
    IndicesSnoc(ms, found);
    if found.Some? {
      assert (ms + [found.value])[..|ms|] == ms;
      if ids.Some? {
        IndicesLength(ms);
        ids := if |ids.value| < budget then Some(ids.value + [found.value.index]) else None;
      }
      scored := InsertBounded(scored, found.value, cap);
    } else {
      assert ms + [] == ms;
    }
  }

  lemma {:induction false} IndicesLength(ms: seq<Scored>)
    ensures |Indices(ms)| == |ms|
  {
    if ms != [] {
      IndicesLength(ms[..|ms| - 1]);
    }
  }

  method LowestScore(heap: seq<Scored>) returns (min: nat)
    requires heap != []
    ensures min == MinScore(Points(heap))
  {
    min := heap[0].points;
    ghost var points := Points(heap);
    MinStep(points, 0);
    for k := 1 to |heap|
      invariant min == MinScore(points[..k])
    {
      MinStep(points, k);
      if heap[k].points < min { min := heap[k].points; }
    }
    assert points[..|heap|] == points;
  }

  lemma MinStep(points: seq<nat>, k: nat)
    requires k < |points|
    ensures MinScore(points[..k + 1]) ==
            if k == 0 || points[k] < MinScore(points[..k]) then points[k] else MinScore(points[..k])
  {
    assert points[..k + 1][..k] == points[..k];
  }

  method PositionOf(heap: seq<Scored>, score: nat) returns (pos: nat)
    requires score in Points(heap)
    ensures pos == FirstPosition(Points(heap), score)
  {
    pos := 0;
    ghost var points := Points(heap);
    assert points[0..] == points;
    while heap[pos].points != score
      invariant pos < |heap| && score in points[pos..]
      invariant FirstPosition(points, score) == pos + FirstPosition(points[pos..], score)
      decreases |heap| - pos
    {
      assert points[pos..][1..] == points[pos + 1..];
      pos := pos + 1;
    }
  }

  /** Below the bound, append; above it, a better entry takes the place of the first of the lowest. */
  method InsertBounded(heap: seq<Scored>, entry: Scored, cap: nat) returns (after: seq<Scored>)
    ensures after == InsertTopN(heap, entry, cap)
  {
    if |heap| < cap { return heap + [entry]; }
    if heap == [] { return heap; }
    var min := LowestScore(heap);
    if entry.points <= min { return heap; }
    var pos := PositionOf(heap, min);
    return heap[pos := entry];
  }
}
