/**
 Folding the overlay into a fresh base (`compact_snapshot`, `rebuild`): the
 rebuilt index shows the same tree, now and after any further events.
 */
module Compaction {
  import opened Basics
  import opened Records
  import opened Overlay
  import opened VolumeTree
  import opened Refinement
  import opened Observations
  import opened Builder
  import opened BatchOrder

  datatype CompactRecord = CompactRecord(
    logicalIndex: nat, fileRef: FileRef, parentLogicalIndex: Option<nat>, name: string, flags: nat, rank: nat)

  // ----- Snapshot -----

  function IsLive(v: View): nat -> bool { (i: nat) => Live(v, i) }

  /** The live records in index order. */
  function LiveList(v: View): seq<nat> { Select(0, LogicalLen(v), IsLive(v)) }

  function FlagsAt(v: View, i: nat): nat {
    if i < BaseLen(v) then v.base.records[i].flags
    else match InsertedAt(v, i) case Some(rec) => rec.flags case None => 0
  }

  function RankAt(v: View, i: nat): nat {
    if i < BaseLen(v) then v.base.records[i].rank else 0
  }

  function CompactRecordAt(v: View, i: nat): CompactRecord {
    var name := LogicalName(v, i);
    CompactRecord(i, FileRefAt(v, i), LogicalParent(v, i), if name.Some? then name.value else "",
                  FlagsAt(v, i), RankAt(v, i))
  }

  function SnapshotOf(v: View, live: seq<nat>): (records: seq<CompactRecord>)
    ensures |records| == |live|
  {
    if live == [] then [] else SnapshotOf(v, live[..|live| - 1]) + [CompactRecordAt(v, live[|live| - 1])]
  }

  function Snapshot(v: View): seq<CompactRecord> { SnapshotOf(v, LiveList(v)) }

  lemma {:induction false} SnapshotAt(v: View, live: seq<nat>, k: nat)
    requires k < |live|
    ensures SnapshotOf(v, live)[k] == CompactRecordAt(v, live[k])
  {
    if k < |live| - 1 {
      SnapshotAt(v, live[..|live| - 1], k);
    }
  }

  // ----- Rebuild -----

  /** New position of each old logical index. */
  function OldToNew(records: seq<CompactRecord>): map<nat, nat> {
    if records == [] then map[]
    else OldToNew(records[..|records| - 1])[records[|records| - 1].logicalIndex := |records| - 1]
  }

  function NewParent(oldToNew: map<nat, nat>, r: CompactRecord): nat {
    if r.parentLogicalIndex.Some? && r.parentLogicalIndex.value in oldToNew
    then oldToNew[r.parentLogicalIndex.value] else PARENT_NONE
  }

  function AdditionFor(oldToNew: map<nat, nat>, r: CompactRecord): Addition {
    Addition(r.fileRef, NewParent(oldToNew, r), r.name, r.flags, r.rank)
  }

  function AdditionsFor(oldToNew: map<nat, nat>, records: seq<CompactRecord>): (adds: seq<Addition>)
    ensures |adds| == |records|
    ensures forall k :: 0 <= k < |records| ==> adds[k] == AdditionFor(oldToNew, records[k])
  {
    if records == [] then []
    else AdditionsFor(oldToNew, records[..|records| - 1]) + [AdditionFor(oldToNew, records[|records| - 1])]
  }

  function Additions(records: seq<CompactRecord>): seq<Addition> {
    AdditionsFor(OldToNew(records), records)
  }

  /** The rebuilt index: a new base under an empty overlay. */
  function Compact(v: View): View { BuiltView(Additions(Snapshot(v))) }

  method MapOldToNew(records: seq<CompactRecord>) returns (oldToNew: map<nat, nat>)
    ensures oldToNew == OldToNew(records)
  {
    oldToNew := map[];
    for k := 0 to |records|
      invariant oldToNew == OldToNew(records[..k])
    {
      assert records[..k + 1][..k] == records[..k];
      oldToNew := oldToNew[records[k].logicalIndex := k];
    }
    assert records[..|records|] == records;
  }

  /** Feed the relabelled records to a builder, stopping at the first that does not fit. */
  method AddSnapshot(builder: EsIndexBuilder, records: seq<CompactRecord>, oldToNew: map<nat, nat>, ghost adds: seq<Addition>)
    returns (failed: Option<EsError>)
    requires builder.Valid() && builder.adds == []
    requires |adds| == |records| && forall k :: 0 <= k < |records| ==> adds[k] == AdditionFor(oldToNew, records[k])
    modifies builder
    ensures builder.Valid()
    ensures failed.None? <==> SizesFit(adds)
    ensures failed.None? ==> builder.adds == adds
  {
    for k := 0 to |records|
      invariant builder.Valid()
      invariant builder.adds == adds[..k]
      invariant forall j :: 0 <= j < k ==> AddFits(adds, j)
    {
      assert adds[..k + 1] == adds[..k] + [adds[k]];
      var added := builder.AddRecord(AdditionFor(oldToNew, records[k]));
      assert added.Ok? <==> AddFits(adds, k);
      if added.Err? { return Some(added.error); }
    }
    assert adds[..|records|] == adds;
    return None;
  }

  /** Rebuilding succeeds exactly when every record passes the size checks. */
  method Rebuild(records: seq<CompactRecord>) returns (r: Result<Base, EsError>)
    requires |records| <= PARENT_NONE
    ensures r.Ok? <==> SizesFit(Additions(records))
    ensures r.Ok? ==> r.value == BuiltBase(Additions(records))
  {
    var oldToNew := MapOldToNew(records);
    var builder := new EsIndexBuilder();
    var failed := AddSnapshot(builder, records, oldToNew, Additions(records));
    if failed.Some? { return Err(failed.value); }
    AdditionsFit(records);
    r := builder.Finish();
  }

  lemma AdditionsFit(records: seq<CompactRecord>)
    ensures forall k :: 0 <= k < |records| ==> ParentFits(Additions(records)[k], |records|)
  {
    OldToNewBounded(records);
  }

  lemma {:induction false} OldToNewBounded(records: seq<CompactRecord>)
    ensures forall i :: i in OldToNew(records) ==> OldToNew(records)[i] < |records|
  {
    if records != [] {
      OldToNewBounded(records[..|records| - 1]);
    }
  }

  // ----- Relabelling is an order-preserving bijection -----

  lemma {:induction false} OldToNewAt(v: View, live: seq<nat>, k: nat)
    requires Ascending(live) && k < |live|
    ensures live[k] in OldToNew(SnapshotOf(v, live)) && OldToNew(SnapshotOf(v, live))[live[k]] == k
  {
    var last := |live| - 1;
    var records := SnapshotOf(v, live);
    assert records[..last] == SnapshotOf(v, live[..last]);
    assert records[last].logicalIndex == live[last];
    if k < last {
      OldToNewAt(v, live[..last], k);
    }
  }

  /** What the k-th rebuilt record was added with. */
  lemma AdditionAt(v: View, k: nat)
    requires k < |LiveList(v)|
    ensures |Additions(Snapshot(v))| == |LiveList(v)|
    ensures var i := LiveList(v)[k];
            var a := Additions(Snapshot(v))[k];
            && a.fileRef == FileRefAt(v, i) && a.flags == FlagsAt(v, i) && a.rank == RankAt(v, i)
            && a.name == CompactRecordAt(v, i).name
            && a.parentIdx == NewParent(OldToNew(Snapshot(v)), CompactRecordAt(v, i))
  {
    SnapshotAt(v, LiveList(v), k);
  }

  /** Parents are relabelled together with their children. */
  lemma NewParentIs(v: View, k: nat)
    requires Inv(v) && k < |LiveList(v)|
    ensures var i := LiveList(v)[k];
            var p := Additions(Snapshot(v))[k].parentIdx;
            if LogicalParent(v, i).Some?
            then p < |LiveList(v)| && LiveList(v)[p] == LogicalParent(v, i).value
            else p == PARENT_NONE
  {
    var live := LiveList(v);
    var i := live[k];
    assert i in live;
    AdditionAt(v, k);
    ParentIsUp(v, i);
    if LogicalParent(v, i).Some? {
      assert LogicalParent(v, i).value in live;
      var p :| 0 <= p < |live| && live[p] == LogicalParent(v, i).value;
      OldToNewAt(v, live, p);
    }
  }

  lemma LiveListFits(v: View)
    ensures |LiveList(v)| <= LogicalLen(v)
  {
    DistinctFits(LiveList(v), FirstNumbers(LogicalLen(v)));
  }

  /** The k-th rebuilt row is the k-th live record, relabelled. */
  lemma CompactRow(v: View, k: nat)
    requires Inv(v) && k < |LiveList(v)|
    ensures Live(v, LiveList(v)[k]) && LiveList(v)[k] < LogicalLen(v)
    ensures BaseLen(Compact(v)) == |LiveList(v)|
    ensures var row := Compact(v).base.records[k];
            && row.fileRef == FileRefAt(v, LiveList(v)[k])
            && row.flags == FlagsAt(v, LiveList(v)[k])
            && row.parentIdx == Additions(Snapshot(v))[k].parentIdx
    ensures Some(Additions(Snapshot(v))[k].name) == LogicalName(v, LiveList(v)[k]) == LogicalName(Compact(v), k)
  {
    assert LiveList(v)[k] in LiveList(v);
    NamePresent(v, LiveList(v)[k]);
    AdditionAt(v, k);
    BuiltRecordAt(Additions(Snapshot(v)), k);
    BuiltNames(Additions(Snapshot(v)), k);
  }

  lemma RowFits(v: View, k: nat)
    requires Inv(v) && k < |LiveList(v)|
    ensures |Additions(Snapshot(v))| == |LiveList(v)|
    ensures ParentFits(Additions(Snapshot(v))[k], |LiveList(v)|)
    ensures !HasTombstoneFlag(Additions(Snapshot(v))[k].flags)
    ensures Lookup(v, Additions(Snapshot(v))[k].fileRef.number) == Some(LiveList(v)[k])
  {
    var i := LiveList(v)[k];
    assert i in LiveList(v);
    AdditionAt(v, k);
    NewParentIs(v, k);
    assert RecordOk(v, i);
    if i < BaseLen(v) { assert BaseRowOk(v.base, i); } else { assert InsertedOk(v, i - BaseLen(v)); }
  }

  /** A snapshot of an index that satisfies the invariant can always be rebuilt. */
  lemma SnapshotBuildable(v: View)
    requires Inv(v)
    ensures Buildable(Additions(Snapshot(v)))
    ensures |LiveList(v)| <= LogicalLen(v)
  {
    var adds := Additions(Snapshot(v));
    LiveListFits(v);
    forall k | 0 <= k < |adds|
      ensures ParentFits(adds[k], |adds|) && !HasTombstoneFlag(adds[k].flags)
    {
      RowFits(v, k);
    }
    forall j, k | 0 <= j < k < |adds| ensures adds[j].fileRef.number != adds[k].fileRef.number {
      RowFits(v, j);
      RowFits(v, k);
    }
  }

  // ----- The rebuilt tree -----

  /** Parents correspond under the relabelling, in both directions. */
  lemma CompactParent(v: View, k: nat)
    requires Inv(v) && k < |LiveList(v)|
    ensures var i := LiveList(v)[k];
            var p := LogicalParent(Compact(v), k);
            if LogicalParent(v, i).Some?
            then p.Some? && p.value < |LiveList(v)| && LiveList(v)[p.value] == LogicalParent(v, i).value
            else p == None
  {
    CompactRow(v, k);
    NewParentIs(v, k);
    LiveListFits(v);
  }

  lemma CompactNode(v: View, k: nat)
    requires Inv(v) && k < |LiveList(v)|
    ensures var i := LiveList(v)[k];
            && NumberAt(Compact(v), k) == NumberAt(v, i)
            && NumberAt(v, i) in Abs(v)
            && NodeAt(Compact(v), k) == Settle(Abs(v))[NumberAt(v, i)]
  {
    var i := LiveList(v)[k];
    CompactRow(v, k);
    CompactParent(v, k);
    AbsAt(v, i);
    ParentIsUp(v, i);
    LiveListFits(v);
    if LogicalParent(Compact(v), k).Some? {
      CompactRow(v, LogicalParent(Compact(v), k).value);
    }
  }

  lemma CompactInv(v: View)
    requires Inv(v)
    ensures Inv(Compact(v))
    ensures LogicalLen(Compact(v)) == |LiveList(v)|
    ensures forall i: nat :: Live(Compact(v), i) <==> i < |LiveList(v)|
  {
    SnapshotBuildable(v);
    BuiltViewOk(Additions(Snapshot(v)));
  }

  /** Every number of the old tree is found at the new position of its record. */
  lemma CompactFinds(v: View, n: nat)
    requires Inv(v) && n in Abs(v)
    ensures Lookup(Compact(v), n).Some? && Lookup(Compact(v), n).value < |LiveList(v)|
    ensures Settle(Abs(v))[n] == NodeAt(Compact(v), Lookup(Compact(v), n).value)
  {
    var live := LiveList(v);
    AbsHas(v, n);
    assert Lookup(v, n).value in live;
    var k :| 0 <= k < |live| && live[k] == Lookup(v, n).value;
    CompactNode(v, k);
    CompactInv(v);
    assert RecordOk(Compact(v), k);
  }

  /** The rebuilt index finds no other numbers. */
  lemma CompactFindsOnly(v: View, n: nat)
    requires Inv(v) && Lookup(Compact(v), n).Some?
    ensures n in Abs(v)
  {
    CompactInv(v);
    assert NumberOk(Compact(v), n);
    CompactNode(v, Lookup(Compact(v), n).value);
  }

  /** Compaction keeps the tree, except that unresolved parents become none. */
  lemma CompactSettlesTree(v: View)
    requires Inv(v)
    ensures Inv(Compact(v)) && Compact(v).delta.IsEmpty()
    ensures Abs(Compact(v)) == Settle(Abs(v))
  {
    CompactInv(v);
    forall n: nat ensures (n in Settle(Abs(v)) <==> Lookup(Compact(v), n).Some?)
      && (n in Settle(Abs(v)) ==>
            Lookup(Compact(v), n).value < LogicalLen(Compact(v)) &&
            Settle(Abs(v))[n] == NodeAt(Compact(v), Lookup(Compact(v), n).value))
    {
      if n in Abs(v) { CompactFinds(v, n); } else if Lookup(Compact(v), n).Some? { CompactFindsOnly(v, n); }
    }
    AbsEquals(Compact(v), Settle(Abs(v)));
  }

  // ----- Compaction is invisible -----

  /** What a reader can learn about one record number through the index's own queries. */
  datatype Observation = Observation(name: Option<string>, isDir: bool, path: Option<string>, children: set<nat>)

  function PathText(r: Result<string, EsError>): Option<string> {
    match r case Ok(path) => Some(path) case Err(_) => None
  }

  /** Record numbers of the listed children of record `i`. */
  ghost function ChildrenSeen(v: View, i: nat): set<nat> {
    set m | m in LiveNumbers(v) && Lookup(v, m).Some? && Lookup(v, m).value in LogicalChildren(v, i)
  }

  ghost function Observe(v: View, n: nat): Option<Observation> {
    match Lookup(v, n)
    case None => None
    case Some(i) =>
      Some(Observation(LogicalName(v, i), LogicalIsDir(v, i), PathText(LogicalPath(v, i)), ChildrenSeen(v, i)))
  }

  ghost function ObserveTree(t: Tree, n: nat): Option<Observation> {
    if n !in t then None
    else Some(Observation(Some(t[n].name), t[n].isDir, TreePath(t, n), ChildNumbers(t, n)))
  }

  lemma PathTextOfTree(v: View, i: nat, t: Tree, n: nat)
    requires ShowsPath(v, i, t, n)
    ensures PathText(LogicalPath(v, i)) == TreePath(t, n)
  {}

  lemma NodeObserved(v: View, i: nat)
    requires StructOk(v) && i < LogicalLen(v)
    ensures LogicalName(v, i) == Some(NodeAt(v, i).name) && LogicalIsDir(v, i) == NodeAt(v, i).isDir
  {
    NamePresent(v, i);
  }

  /** Every query about a record is answered by the abstract tree. */
  lemma ObservationsAreOfTheTree(v: View, n: nat)
    requires Inv(v)
    ensures Observe(v, n) == ObserveTree(Abs(v), n)
  {
    AbsHas(v, n);
    if n in Abs(v) {
      var i := Lookup(v, n).value;
      NodeObserved(v, i);
      PathFactorsThroughTree(v, i);
      PathTextOfTree(v, i, Abs(v), n);
      ChildSetsAgree(v, i);
    }
  }

  lemma ChildSetsAgree(v: View, i: nat)
    requires Inv(v) && i < LogicalLen(v) && Live(v, i)
    ensures ChildrenSeen(v, i) == ChildNumbers(Abs(v), NumberAt(v, i))
  {
    forall m: nat ensures m in ChildNumbers(Abs(v), NumberAt(v, i)) <==> m in ChildrenSeen(v, i) {
      ChildrenFactorThroughTree(v, i, m);
      AbsHas(v, m);
    }
  }

  lemma SettlingIsInvisible(t: Tree, n: nat)
    ensures ObserveTree(Settle(t), n) == ObserveTree(t, n)
  {
    if n in t {
      assert forall m :: Up(Settle(t), m) == Up(t, m);
      assert UpForest(Settle(t)) == UpForest(t);
      assert ChildNumbers(Settle(t), n) == ChildNumbers(t, n);
      assert |Settle(t)| == |t| by {
        assert Settle(t).Keys == t.Keys;
        assert |Settle(t)| == |Settle(t).Keys| && |t| == |t.Keys|;
      }
      forall chain: seq<nat> ensures NamesAlong(Settle(t), chain) == NamesAlong(t, chain) {
        SettledNames(t, chain);
      }
    }
  }

  lemma {:induction false} SettledNames(t: Tree, chain: seq<nat>)
    ensures NamesAlong(Settle(t), chain) == NamesAlong(t, chain)
  {
    if chain != [] {
      SettledNames(t, chain[1..]);
    }
  }

  /** Right after compaction every query answers as before, settled or not. */
  lemma CompactionInvisibleNow(v: View, n: nat)
    requires Inv(v)
    ensures Observe(Compact(v), n) == Observe(v, n)
  {
    CompactSettlesTree(v);
    ObservationsAreOfTheTree(v, n);
    ObservationsAreOfTheTree(Compact(v), n);
    SettlingIsInvisible(Abs(v), n);
  }

  /** Batches of events that can come next. */
  ghost predicate FitsBatches(v: View, batches: seq<seq<UsnEvent>>) {
    LogicalLen(v) + TotalEvents(batches) <= PARENT_NONE && OrderlyAll(Abs(v), batches)
  }

  lemma CompactIsNoLonger(v: View)
    requires Inv(v)
    ensures LogicalLen(Compact(v)) <= LogicalLen(v)
  {
    SnapshotBuildable(v);
  }

  /** From a settled index, compaction is a bisimulation: any further batches keep all queries equal. */
  lemma CompactionBisimulates(v: View, batches: seq<seq<UsnEvent>>, n: nat)
    requires Inv(v) && Settled(Abs(v)) && FitsBatches(v, batches)
    ensures Inv(ApplyBatches(v, batches)) && Inv(ApplyBatches(Compact(v), batches))
    ensures Abs(ApplyBatches(Compact(v), batches)) == Abs(ApplyBatches(v, batches))
    ensures AgreeOn(ApplyBatches(v, batches), ApplyBatches(Compact(v), batches), n)
  {
    CompactSettlesTree(v);
    SettleIsIdentityIffSettled(Abs(v));
    CompactIsNoLonger(v);
    BatchesRefine(v, batches);
    BatchesRefine(Compact(v), batches);
    SameTreeAgrees(ApplyBatches(v, batches), ApplyBatches(Compact(v), batches), n);
  }

  ghost predicate AgreeOn(v: View, w: View, n: nat) { Observe(v, n) == Observe(w, n) }

  /** Indexes of one tree answer every query alike; so do the orders of a batch of `AnyOrderDoes`. */
  lemma SameTreeAgrees(v: View, w: View, n: nat)
    requires Inv(v) && Inv(w) && Abs(v) == Abs(w)
    ensures AgreeOn(v, w, n)
  {
    ObservationsAreOfTheTree(v, n);
    ObservationsAreOfTheTree(w, n);
  }

  ghost predicate InvisibleAfter(v: View, batches: seq<seq<UsnEvent>>) {
    forall n: nat :: AgreeOn(ApplyBatches(v, batches), ApplyBatches(Compact(v), batches), n)
  }

  /** A create that an unresolved parent `q` is waiting for, whatever else it says. */
  ghost predicate Supplies(e: UsnEvent, q: nat) {
    e.kind == Create && HasName(e) && MftRecordNumber(e.fileRef) == q && EventFlagsOk(e)
  }

  lemma LateParentShows(t: Tree, n: nat, q: nat, e: UsnEvent)
    requires n in t && t[n].parent == Some(q) && q !in t && Supplies(e, q)
    ensures ObserveTree(TreeCreate(Settle(t), e), q) != ObserveTree(TreeCreate(t, e), q)
  {
    assert n in ChildNumbers(TreeCreate(t, e), q);
    assert n !in ChildNumbers(TreeCreate(Settle(t), e), q);
  }

  lemma ObservedAfter(v: View, e: UsnEvent, n: nat)
    requires Inv(v) && LogicalLen(v) < PARENT_NONE && WellFormed(Abs(v), e)
    ensures Observe(ApplyEvent(v, e), n) == ObserveTree(TreeApply(Abs(v), e), n)
  {
    EventRefines(v, e);
    ObservationsAreOfTheTree(ApplyEvent(v, e), n);
  }

  lemma OneEventApplied(w: View, e: UsnEvent)
    ensures ApplyBatches(w, [[e]]) == ApplyEvent(w, e)
  {
    assert [[e]][..0] == [] && [e][..0] == [];
    assert ApplyBatches(w, [[e]]) == ApplyEvents(w, [e]);
    assert ApplyEvents(w, []) == w;
  }

  lemma OneEvent(v: View, e: UsnEvent)
    requires LogicalLen(v) < PARENT_NONE && WellFormed(Abs(v), e)
    ensures FitsBatches(v, [[e]])
  {
    assert [[e]][..0] == [] && [e][..0] == [];
    assert WellFormedAll(Abs(v), []);
    assert WellFormedAll(Abs(v), [e]);
    assert Orderly(TreeApplyBatches(Abs(v), []), [e]);
  }

  /** A compaction that ran before a parent arrived never links its children, whichever create brings the parent. */
  lemma LateParentIsVisible(v: View, n: nat, q: nat, e: UsnEvent)
    requires Inv(v) && LogicalLen(v) < PARENT_NONE
    requires n in Abs(v) && Abs(v)[n].parent == Some(q) && q !in Abs(v) && Supplies(e, q)
    ensures FitsBatches(v, [[e]]) && !InvisibleAfter(v, [[e]])
  {
    OneEvent(v, e);
    OneEventApplied(v, e);
    OneEventApplied(Compact(v), e);
    LateParentDiffers(v, n, q, e);
    assert !AgreeOn(ApplyBatches(v, [[e]]), ApplyBatches(Compact(v), [[e]]), q);
  }

  lemma LateParentDiffers(v: View, n: nat, q: nat, e: UsnEvent)
    requires Inv(v) && LogicalLen(v) < PARENT_NONE
    requires n in Abs(v) && Abs(v)[n].parent == Some(q) && q !in Abs(v) && Supplies(e, q)
    ensures Observe(ApplyEvent(v, e), q) != Observe(ApplyEvent(Compact(v), e), q)
  {
    CompactSettlesTree(v);
    CompactIsNoLonger(v);
    ObservedAfter(v, e, q);
    ObservedAfter(Compact(v), e, q);
    LateParentShows(Abs(v), n, q, e);
  }

  /** The create of directory `q` under a parent that the index does not know either, so that no cycle arises. */
  function LateParent(q: nat, above: nat): UsnEvent {
    UsnEvent(Create, FileRef(0, q), Some(FileRef(0, above)), Some("late"), Some(1))
  }

  lemma {:induction false} UnusedNumber(used: set<nat>) returns (r: nat)
    ensures forall x :: x in used ==> x < r
    decreases |used|
  {
    if used == {} {
      r := 0;
    } else {
      var x :| x in used;
      var below := UnusedNumber(used - {x});
      r := Max(below, x + 1);
      assert forall y :: y in used ==> y == x || y in used - {x};
    }
  }

  /** An unsettled tree has a future that tells. */
  lemma UnsettledShows(v: View) returns (batches: seq<seq<UsnEvent>>)
    requires Inv(v) && LogicalLen(v) < PARENT_NONE && !Settled(Abs(v))
    ensures FitsBatches(v, batches) && !InvisibleAfter(v, batches)
  {
    var n :| n in Abs(v) && Abs(v)[n].parent.Some? && Abs(v)[n].parent.value !in Abs(v);
    var q := Abs(v)[n].parent.value;
    var above := UnusedNumber(Abs(v).Keys + {q});
    batches := [[LateParent(q, above)]];
    LateParentIsVisible(v, n, q, LateParent(q, above));
  }

  /** Compaction stays invisible under every orderly future if and only if the tree was settled. */
  lemma CompactionInvisibleIffSettled(v: View)
    requires Inv(v) && LogicalLen(v) < PARENT_NONE
    ensures Settled(Abs(v)) <==> forall batches :: FitsBatches(v, batches) ==> InvisibleAfter(v, batches)
  {
    if Settled(Abs(v)) {
      forall batches | FitsBatches(v, batches) ensures InvisibleAfter(v, batches) {
        forall n: nat ensures AgreeOn(ApplyBatches(v, batches), ApplyBatches(Compact(v), batches), n) {
          CompactionBisimulates(v, batches, n);
        }
      }
    } else {
      var batches := UnsettledShows(v);
    }
  }
}
