/**
 Turning the records of a master file table into an index (drive_manager.rs):
 rows are added parents first, by passes over the drafts until a pass adds
 nothing, and what is left over is attached to the root.
 */
module DraftOrder {
  import opened Basics
  import opened Records
  import opened Chains
  import opened Overlay
  import opened Refinement
  import opened Observations
  import opened Builder

  const NO_PARENT: nat := 0xFFFF_FFFF

  datatype RowDraft = RowDraft(frs: nat, parentFrs: nat, name: string, flags: nat)

  // ----- The root draft -----

  function FindDraft(drafts: seq<RowDraft>, frs: nat): (found: Option<nat>)
    ensures found.Some? ==> found.value < |drafts| && drafts[found.value].frs == frs
    ensures found.None? ==> forall i :: 0 <= i < |drafts| ==> drafts[i].frs != frs
  {
    if drafts == [] then None
    else if drafts[0].frs == frs then Some(0)
    else match FindDraft(drafts[1..], frs) case None => None case Some(i) => Some(i + 1)
  }

  function WithDirectoryFlag(flags: nat): nat { if HasDirectoryFlag(flags) then flags else flags + 1 }

  /** The volume's root takes the drive's name and no parent; a missing root is put in front. */
  function WithRoot(drafts: seq<RowDraft>, driveName: string): seq<RowDraft> {
    match FindDraft(drafts, ROOT_FRS)
    case Some(i) =>
      drafts[i := RowDraft(ROOT_FRS, NO_PARENT, driveName, WithDirectoryFlag(drafts[i].flags))]
    case None => [RowDraft(ROOT_FRS, NO_PARENT, driveName, 1)] + drafts
  }

  ghost predicate OwnNumbers(drafts: seq<RowDraft>) {
    forall i, j :: 0 <= i < j < |drafts| ==> drafts[i].frs != drafts[j].frs
  }

  function DraftOf(drafts: seq<RowDraft>, frs: nat): Option<RowDraft> {
    match FindDraft(drafts, frs) case None => None case Some(i) => Some(drafts[i])
  }

  lemma DraftOfIs(drafts: seq<RowDraft>, i: nat)
    requires OwnNumbers(drafts) && i < |drafts|
    ensures DraftOf(drafts, drafts[i].frs) == Some(drafts[i])
  {}

  lemma RootIsThere(drafts: seq<RowDraft>, driveName: string)
    ensures FindDraft(WithRoot(drafts, driveName), ROOT_FRS).Some?
  {
    var rows := WithRoot(drafts, driveName);
    var at := if FindDraft(drafts, ROOT_FRS).Some? then FindDraft(drafts, ROOT_FRS).value else 0;
    assert rows[at].frs == ROOT_FRS;
  }

  /** There is exactly one root, a parentless directory named like the drive; every other draft is as found. */
  lemma WithRootHasRoot(drafts: seq<RowDraft>, driveName: string)
    requires OwnNumbers(drafts)
    ensures var rows := WithRoot(drafts, driveName);
            var root := DraftOf(rows, ROOT_FRS);
            && OwnNumbers(rows) && FindDraft(rows, ROOT_FRS).Some?
            && root.Some? && root.value.parentFrs == NO_PARENT && root.value.name == driveName
            && root.value.flags == (match DraftOf(drafts, ROOT_FRS)
                                    case Some(d) => d.flags / 2 * 2 + 1
                                    case None => 1)
            && forall frs: nat :: frs != ROOT_FRS ==> DraftOf(rows, frs) == DraftOf(drafts, frs)
  {
    var rows := WithRoot(drafts, driveName);
    var found := FindDraft(drafts, ROOT_FRS);
    var at := if found.Some? then found.value else 0;
    assert rows[at].frs == ROOT_FRS;
    DraftOfIs(rows, at);
    forall frs: nat | frs != ROOT_FRS ensures DraftOf(rows, frs) == DraftOf(drafts, frs) {
      var before := FindDraft(drafts, frs);
      if before.Some? {
        var shift := if found.Some? then 0 else 1;
        assert rows[before.value + shift] == drafts[before.value];
        DraftOfIs(rows, before.value + shift);
      }
    }
  }

  // ----- What can be placed -----

  /** A draft that asks for no parent, or for itself. */
  predicate IsStart(d: RowDraft) { d.parentFrs == NO_PARENT || d.parentFrs == d.frs }

  function ParentDraft(drafts: seq<RowDraft>, di: nat): Option<nat>
    requires di < |drafts|
  {
    if IsStart(drafts[di]) then None else FindDraft(drafts, drafts[di].parentFrs)
  }

  ghost predicate AnchoredIn(drafts: seq<RowDraft>, root: nat, di: nat, steps: nat)
    decreases steps
  {
    di < |drafts| &&
    (di == root || IsStart(drafts[di]) ||
     (steps > 0 && ParentDraft(drafts, di).Some? && AnchoredIn(drafts, root, ParentDraft(drafts, di).value, steps - 1)))
  }

  /** The parent chain of a draft meets the root, a parentless draft or a draft that is its own parent. */
  ghost predicate Anchored(drafts: seq<RowDraft>, root: nat, di: nat) {
    exists steps: nat :: AnchoredIn(drafts, root, di, steps)
  }

  lemma ChildIsAnchored(drafts: seq<RowDraft>, root: nat, di: nat)
    requires di < |drafts| && ParentDraft(drafts, di).Some? && Anchored(drafts, root, ParentDraft(drafts, di).value)
    ensures Anchored(drafts, root, di)
  {
    var steps: nat :| AnchoredIn(drafts, root, ParentDraft(drafts, di).value, steps);
    assert AnchoredIn(drafts, root, di, steps + 1);
  }

  /** Not yet placed, and not placeable while its parent is not. */
  ghost predicate Waits(drafts: seq<RowDraft>, root: nat, order: seq<nat>, di: nat) {
    di < |drafts| && di !in order ==>
      di != root && !IsStart(drafts[di]) && (ParentDraft(drafts, di).Some? ==> ParentDraft(drafts, di).value !in order)
  }

  /** When every remaining draft waits, none of them is anchored. */
  lemma {:induction false} WaitingIsNotAnchored(drafts: seq<RowDraft>, root: nat, order: seq<nat>, di: nat, steps: nat)
    requires forall i: nat :: Waits(drafts, root, order, i)
    requires di < |drafts| && di !in order
    ensures !AnchoredIn(drafts, root, di, steps)
    decreases steps
  {
    assert Waits(drafts, root, order, di);
    if steps > 0 && ParentDraft(drafts, di).Some? {
      WaitingIsNotAnchored(drafts, root, order, ParentDraft(drafts, di).value, steps - 1);
    }
  }

  // ----- Where a draft is placed -----

  /** The parent index that the k-th placed draft must carry. */
  ghost predicate ParentOk(drafts: seq<RowDraft>, root: nat, order: seq<nat>, k: nat, parentIdx: nat)
    requires k < |order| && order[k] < |drafts|
  {
    var di := order[k];
    if di == root || IsStart(drafts[di]) then parentIdx == PARENT_NONE
    else if Anchored(drafts, root, di) then
      parentIdx < k && Some(order[parentIdx]) == ParentDraft(drafts, di)
    else k > 0 && parentIdx == 0 && order[0] == root
  }

  ghost predicate PlacedOk(drafts: seq<RowDraft>, root: nat, order: seq<nat>, adds: seq<Addition>, k: nat) {
    k < |order| && k < |adds| && order[k] < |drafts| ==>
      && adds[k] == Addition(RefOf(drafts[order[k]].frs), adds[k].parentIdx, drafts[order[k]].name, drafts[order[k]].flags, 0)
      && ParentOk(drafts, root, order, k, adds[k].parentIdx)
  }

  /** The drafts placed so far, in order, with the rows that were added for them. */
  ghost predicate PlacedAll(drafts: seq<RowDraft>, root: nat, order: seq<nat>, adds: seq<Addition>) {
    && |order| == |adds| && Distinct(order) && order != [] && order[0] == root
    && (forall k :: 0 <= k < |order| ==> order[k] < |drafts|)
    && (forall k: nat :: PlacedOk(drafts, root, order, adds, k))
  }

  lemma PlacesOne(drafts: seq<RowDraft>, root: nat, order: seq<nat>, adds: seq<Addition>, di: nat, a: Addition)
    requires PlacedAll(drafts, root, order, adds) && di < |drafts| && di !in order
    requires a == Addition(RefOf(drafts[di].frs), a.parentIdx, drafts[di].name, drafts[di].flags, 0)
    requires ParentOk(drafts, root, order + [di], |order|, a.parentIdx)
    ensures PlacedAll(drafts, root, order + [di], adds + [a])
  {
    forall k: nat ensures PlacedOk(drafts, root, order + [di], adds + [a], k) {
      assert PlacedOk(drafts, root, order, adds, k);
    }
  }

  // ----- Consequences of the order -----

  ghost predicate Complete(drafts: seq<RowDraft>, root: nat, order: seq<nat>, adds: seq<Addition>) {
    PlacedAll(drafts, root, order, adds) && forall di :: 0 <= di < |drafts| ==> di in order
  }

  /** Every row has no parent or one that was added before it. */
  lemma ParentsComeFirst(drafts: seq<RowDraft>, root: nat, order: seq<nat>, adds: seq<Addition>, k: nat)
    requires PlacedAll(drafts, root, order, adds) && k < |adds|
    ensures adds[k].parentIdx == PARENT_NONE || adds[k].parentIdx < k
  {
    assert PlacedOk(drafts, root, order, adds, k);
  }

  function Members(s: seq<nat>): (all: set<nat>)
    ensures |all| <= |s| && forall i: nat :: i in all <==> i in s
  {
    if s == [] then {} else Members(s[..|s| - 1]) + {s[|s| - 1]}
  }

  /** Each draft is placed exactly once. */
  lemma EachDraftOnce(drafts: seq<RowDraft>, root: nat, order: seq<nat>, adds: seq<Addition>)
    requires Complete(drafts, root, order, adds)
    ensures |adds| == |drafts|
    ensures forall di :: 0 <= di < |drafts| ==> multiset(order)[di] == 1
  {
    DistinctFits(order, FirstNumbers(|drafts|));
    SubsetSize(FirstNumbers(|drafts|), Members(order));
    forall di | 0 <= di < |drafts| ensures multiset(order)[di] == 1 {
      DistinctOnce(order, di);
    }
  }

  /** Attached to the root for want of a parent chain. */
  ghost predicate FellBack(drafts: seq<RowDraft>, root: nat, order: seq<nat>, adds: seq<Addition>, k: nat)
    requires k < |order| && k < |adds| && order[k] < |drafts|
  {
    adds[k].parentIdx == 0 && ParentDraft(drafts, order[k]) != Some(root)
  }

  /** The fallback takes exactly the drafts whose parent chain meets no start. */
  lemma FallbackIffNotAnchored(drafts: seq<RowDraft>, root: nat, order: seq<nat>, adds: seq<Addition>, k: nat)
    requires PlacedAll(drafts, root, order, adds) && k < |adds| && root < |drafts|
    ensures FellBack(drafts, root, order, adds, k) <==> !Anchored(drafts, root, order[k])
  {
    assert PlacedOk(drafts, root, order, adds, k);
    var di := order[k];
    assert AnchoredIn(drafts, root, root, 0);
    if IsStart(drafts[di]) { assert AnchoredIn(drafts, root, di, 0); }
    if ParentDraft(drafts, di) == Some(root) { ChildIsAnchored(drafts, root, di); }
  }

  /** In an index built in this order no parent chain is a cycle: every record has a path. */
  lemma {:induction false} ClimbsToRoot(adds: seq<Addition>, i: nat)
    requires Buildable(adds) && i < |adds|
    requires forall k :: 0 <= k < |adds| ==> adds[k].parentIdx == PARENT_NONE || adds[k].parentIdx < k
    ensures ReachesRoot(LogicalForest(BuiltView(adds)), i)
  {
    var f := LogicalForest(BuiltView(adds));
    BuiltRecordAt(adds, i);
    if adds[i].parentIdx == PARENT_NONE {
      assert Chain(f, i, 1) == Some([i]);
    } else {
      ClimbsToRoot(adds, adds[i].parentIdx);
      DepthOfChild(f, i);
    }
  }

  lemma OrderedIndexHasPaths(drafts: seq<RowDraft>, root: nat, order: seq<nat>, adds: seq<Addition>, i: nat)
    requires PlacedAll(drafts, root, order, adds) && Buildable(adds) && i < |adds|
    ensures LogicalPath(BuiltView(adds), i).Ok?
  {
    forall k | 0 <= k < |adds| ensures adds[k].parentIdx == PARENT_NONE || adds[k].parentIdx < k {
      ParentsComeFirst(drafts, root, order, adds, k);
    }
    BuiltViewOk(adds);
    ClimbsToRoot(adds, i);
    CycleDetectionExact(BuiltView(adds), i);
  }

  // ----- The passes -----

  /** The flow table: the position at which each draft was placed. */
  ghost predicate FlowOk(flow: seq<nat>, order: seq<nat>, n: nat) {
    |flow| == n && forall di: nat :: FlowAt(flow, order, di)
  }

  ghost predicate FlowAt(flow: seq<nat>, order: seq<nat>, di: nat) {
    di < |flow| ==>
      if flow[di] == PARENT_NONE then di !in order else flow[di] < |order| && order[flow[di]] == di
  }

  ghost predicate OrderAnchored(drafts: seq<RowDraft>, root: nat, order: seq<nat>) {
    forall k :: 0 <= k < |order| ==> Anchored(drafts, root, order[k])
  }

  /** Bytes of the names of all drafts together. */
  function DraftBytes(drafts: seq<RowDraft>): nat {
    if drafts == [] then 0 else DraftBytes(drafts[..|drafts| - 1]) + |drafts[|drafts| - 1].name|
  }

  /** The only faults: a name of 64 KiB or more, or names of 4 GiB or more together. */
  ghost predicate SizeFault(drafts: seq<RowDraft>, e: EsError) {
    || (e.NameTooLong? && exists i :: 0 <= i < |drafts| && |drafts[i].name| >= 0x1_0000)
    || (e.NamesBlobTooLarge? && DraftBytes(drafts) >= 0x1_0000_0000)
  }

  lemma {:induction false} DraftBytesUpdate(drafts: seq<RowDraft>, d: nat, rest: RowDraft)
    requires d < |drafts|
    ensures DraftBytes(drafts[d := rest]) + |drafts[d].name| == DraftBytes(drafts) + |rest.name|
  {
    var init, last := drafts[..|drafts| - 1], |drafts| - 1;
    if d < last {
      assert drafts[d := rest][..last] == init[d := rest];
      DraftBytesUpdate(init, d, rest);
    } else {
      assert drafts[d := rest][..last] == init;
    }
  }

  /** Drafts with different positions have at most the bytes of all. */
  lemma {:induction false} PlacedBytes(drafts: seq<RowDraft>, order: seq<nat>, adds: seq<Addition>)
    requires Distinct(order) && |order| == |adds|
    requires forall k :: 0 <= k < |order| ==> order[k] < |drafts| && adds[k].name == drafts[order[k]].name
    ensures NameBytes(adds) <= DraftBytes(drafts)
    decreases |order|
  {
    if order != [] {
      var last := order[|order| - 1];
      var blank := drafts[last := drafts[last].(name := "")];
      PlacedBytes(blank, order[..|order| - 1], adds[..|adds| - 1]);
      DraftBytesUpdate(drafts, last, drafts[last].(name := ""));
    }
  }

  lemma FaultIsSize(drafts: seq<RowDraft>, root: nat, order: seq<nat>, adds: seq<Addition>, di: nat)
    requires PlacedAll(drafts, root, order, adds) || (order == [] && adds == [])
    requires di < |drafts| && |adds| <= U32_MAX && AddResult(adds, drafts[di].name).Err?
    ensures SizeFault(drafts, AddResult(adds, drafts[di].name).error)
  {
    forall k: nat | k < |order| ensures order[k] < |drafts| && adds[k].name == drafts[order[k]].name {
      assert PlacedOk(drafts, root, order, adds, k);
    }
    PlacedBytes(drafts, order, adds);
    BlobHoldsNames(adds);
  }

  lemma FlowGrows(flow: seq<nat>, order: seq<nat>, n: nat, di: nat)
    requires FlowOk(flow, order, n) && di < n && di !in order && |order| != PARENT_NONE
    ensures FlowOk(flow[di := |order|], order + [di], n)
  {
    var grown, longer := flow[di := |order|], order + [di];
    forall i: nat ensures FlowAt(grown, longer, i) {
      assert FlowAt(flow, order, i);
    }
  }

  /** Add the row of one draft and note where it went. */
  method Place(builder: EsIndexBuilder, flow: array<nat>, drafts: seq<RowDraft>, root: nat, di: nat, parentFlow: nat,
               ghost order: seq<nat>)
    returns (failed: Option<EsError>)
    requires builder.Valid() && PlacedAll(drafts, root, order, builder.adds) && FlowOk(flow[..], order, |drafts|)
    requires di < |drafts| < PARENT_NONE && di !in order && |order| < |drafts|
    requires ParentOk(drafts, root, order + [di], |order|, parentFlow)
    modifies builder, flow
    ensures builder.Valid()
    ensures failed.Some? ==> SizeFault(drafts, failed.value)
    ensures failed.None? ==>
              PlacedAll(drafts, root, order + [di], builder.adds) && FlowOk(flow[..], order + [di], |drafts|)
  {
    var d := drafts[di];
    var a := Addition(RefOf(d.frs), parentFlow, d.name, d.flags, 0);
    PlacesOne(drafts, root, order, builder.adds, di, a);
    FlowGrows(flow[..], order, |drafts|, di);
    ghost var before := builder.adds;
    if AddResult(before, a.name).Err? { FaultIsSize(drafts, root, order, before, di); }
    var added := builder.AddRecord(a);
    if added.Err? { return Some(added.error); }
    flow[di] := added.value;
    return None;
  }

  function ResolveParent(flow: seq<nat>, drafts: seq<RowDraft>, d: RowDraft): nat
    requires |flow| == |drafts|
  {
    if IsStart(d) then PARENT_NONE
    else match FindDraft(drafts, d.parentFrs) case Some(p) => flow[p] case None => PARENT_NONE
  }

  lemma FewPlaced(order: seq<nat>, n: nat, di: nat)
    requires Distinct(order) && (forall k :: 0 <= k < |order| ==> order[k] < n) && di < n && di !in order
    ensures |order| < n
  {
    DistinctFits(order, FirstNumbers(n) - {di});
  }

  /** A draft with a placed parent, or that needs none, may go next. */
  lemma MayGoNext(drafts: seq<RowDraft>, root: nat, order: seq<nat>, flow: seq<nat>, di: nat)
    requires FlowOk(flow, order, |drafts|) && OrderAnchored(drafts, root, order)
    requires di < |drafts| && di !in order && di != root
    ensures var parentFlow := ResolveParent(flow, drafts, drafts[di]);
            if parentFlow != PARENT_NONE || IsStart(drafts[di])
            then ParentOk(drafts, root, order + [di], |order|, parentFlow) && Anchored(drafts, root, di)
            else Waits(drafts, root, order, di)
  {
    if IsStart(drafts[di]) {
      assert AnchoredIn(drafts, root, di, 0);
    } else if ParentDraft(drafts, di).Some? {
      var p := ParentDraft(drafts, di).value;
      assert FlowAt(flow, order, p);
      if flow[p] != PARENT_NONE {
        assert Anchored(drafts, root, order[flow[p]]);
        ChildIsAnchored(drafts, root, di);
      }
    }
  }

  /** One pass over all drafts; if it places none, every remaining draft waits. */
  method Pass(builder: EsIndexBuilder, flow: array<nat>, drafts: seq<RowDraft>, root: nat, ghost order: seq<nat>)
    returns (failed: Option<EsError>, inserted: nat, ghost after: seq<nat>)
    requires builder.Valid() && PlacedAll(drafts, root, order, builder.adds) && FlowOk(flow[..], order, |drafts|)
    requires OrderAnchored(drafts, root, order) && |drafts| < PARENT_NONE
    modifies builder, flow
    ensures builder.Valid()
    ensures failed.Some? ==> SizeFault(drafts, failed.value)
    ensures failed.None? ==>
              && PlacedAll(drafts, root, after, builder.adds) && FlowOk(flow[..], after, |drafts|)
              && OrderAnchored(drafts, root, after) && |after| == |order| + inserted
              && (inserted == 0 ==> after == order && forall i: nat :: Waits(drafts, root, order, i))
  {
    inserted, after := 0, order;
    for di := 0 to |drafts|
      invariant builder.Valid()
      invariant PlacedAll(drafts, root, after, builder.adds) && FlowOk(flow[..], after, |drafts|)
      invariant OrderAnchored(drafts, root, after) && |after| == |order| + inserted
      invariant inserted == 0 ==> after == order && forall i: nat :: i < di ==> Waits(drafts, root, order, i)
    {
      assert FlowAt(flow[..], after, di);
      if flow[di] != PARENT_NONE { continue; }
      MayGoNext(drafts, root, after, flow[..], di);
      var parentFlow := ResolveParent(flow[..], drafts, drafts[di]);
      if parentFlow != PARENT_NONE || IsStart(drafts[di]) {
        FewPlaced(after, |drafts|, di);
        failed := Place(builder, flow, drafts, root, di, parentFlow, after);
        if failed.Some? { return; }
        after := after + [di];
        inserted := inserted + 1;
      }
    }
    failed := None;
  }

  /** Attach what is left to the root. */
  method AttachRest(builder: EsIndexBuilder, flow: array<nat>, drafts: seq<RowDraft>, root: nat, ghost order: seq<nat>)
    returns (failed: Option<EsError>, ghost after: seq<nat>)
    requires builder.Valid() && PlacedAll(drafts, root, order, builder.adds) && FlowOk(flow[..], order, |drafts|)
    requires (forall i: nat :: Waits(drafts, root, order, i)) && |drafts| < PARENT_NONE && root < |drafts|
    modifies builder, flow
    ensures builder.Valid()
    ensures failed.Some? ==> SizeFault(drafts, failed.value)
    ensures failed.None? ==> Complete(drafts, root, after, builder.adds)
  {
    after := order;
    assert FlowAt(flow[..], order, root);
    var rootFlow := flow[root];
    forall i: nat | i < |drafts| && i !in order ensures !Anchored(drafts, root, i) {
      forall steps: nat ensures !AnchoredIn(drafts, root, i, steps) {
        WaitingIsNotAnchored(drafts, root, order, i, steps);
      }
    }
    for di := 0 to |drafts|
      invariant builder.Valid()
      invariant PlacedAll(drafts, root, after, builder.adds) && FlowOk(flow[..], after, |drafts|)
      invariant order <= after
      invariant forall i :: 0 <= i < di ==> i in after
    {
      assert FlowAt(flow[..], after, di);
      if flow[di] == PARENT_NONE {
        assert Waits(drafts, root, order, di);
        FewPlaced(after, |drafts|, di);
        failed := Place(builder, flow, drafts, root, di, rootFlow, after);
        if failed.Some? { return; }
        after := after + [di];
      }
    }
    failed := None;
  }

  // ----- The whole order -----

  /** Place the root first. */
  method PlaceRoot(builder: EsIndexBuilder, flow: array<nat>, drafts: seq<RowDraft>, root: nat)
    returns (failed: Option<EsError>)
    requires builder.Valid() && builder.adds == [] && root < |drafts| < PARENT_NONE && flow.Length == |drafts|
    requires forall i :: 0 <= i < flow.Length ==> flow[i] == PARENT_NONE
    modifies builder, flow
    ensures builder.Valid()
    ensures failed.Some? ==> SizeFault(drafts, failed.value)
    ensures failed.None? ==>
              PlacedAll(drafts, root, [root], builder.adds) && FlowOk(flow[..], [root], |drafts|)
              && OrderAnchored(drafts, root, [root])
  {
    var d := drafts[root];
    if AddResult([], d.name).Err? { FaultIsSize(drafts, root, [], [], root); }
    var added := builder.AddRecord(Addition(RefOf(d.frs), PARENT_NONE, d.name, d.flags, 0));
    if added.Err? { return Some(added.error); }
    flow[root] := added.value;
    assert AnchoredIn(drafts, root, root, 0);
    return None;
  }

  /**
   Add every draft of a volume, parents first. The passes end, since each but the
   last places a draft; the rows fail only on the size limits of the columns.
   */
  method BuildFromDrafts(found: seq<RowDraft>, driveName: string)
    returns (r: Result<Base, EsError>, ghost order: seq<nat>, ghost adds: seq<Addition>)
    requires |found| + 1 < PARENT_NONE
    ensures r.Err? ==> SizeFault(WithRoot(found, driveName), r.error)
    ensures r.Ok? ==>
              var drafts := WithRoot(found, driveName);
              var root := FindDraft(drafts, ROOT_FRS);
              root.Some? && Complete(drafts, root.value, order, adds) && r.value == BuiltBase(adds)
  {
    var drafts := WithRoot(found, driveName);
    RootIsThere(found, driveName);
    var root := FindDraft(drafts, ROOT_FRS).value;
    var builder := new EsIndexBuilder();
    var flow := new nat[|drafts|](_ => PARENT_NONE);
    var failed := PlaceRoot(builder, flow, drafts, root);
    order, adds := [root], [];
    if failed.Some? { return Err(failed.value), order, adds; }
    var inserted, prevInserted := 1, 0;
    while inserted != prevInserted
      invariant builder.Valid() && prevInserted <= inserted == |order|
      invariant PlacedAll(drafts, root, order, builder.adds) && FlowOk(flow[..], order, |drafts|)
      invariant OrderAnchored(drafts, root, order)
      invariant inserted == prevInserted ==> forall i: nat :: Waits(drafts, root, order, i)
      decreases |drafts| - inserted, inserted - prevInserted
    {
      prevInserted := inserted;
      ghost var before := order;
      var placed;
      failed, placed, order := Pass(builder, flow, drafts, root, order);
      if failed.Some? { return Err(failed.value), order, adds; }
      inserted := inserted + placed;
      OrderFits(drafts, root, order, builder.adds);
    }
    failed, order := AttachRest(builder, flow, drafts, root, order);
    if failed.Some? { return Err(failed.value), order, adds; }
    adds := builder.adds;
    EachDraftOnce(drafts, root, order, adds);
    forall k | 0 <= k < |adds| ensures ParentFits(adds[k], |adds|) {
      ParentsComeFirst(drafts, root, order, adds, k);
    }
    r := builder.Finish();
  }

  lemma OrderFits(drafts: seq<RowDraft>, root: nat, order: seq<nat>, adds: seq<Addition>)
    requires PlacedAll(drafts, root, order, adds)
    ensures |order| <= |drafts|
  {
    DistinctFits(order, FirstNumbers(|drafts|));
  }

  /** Drafts with record numbers of their own make a sound index, in which every record has a path. */
  lemma OrderedDraftsBuild(drafts: seq<RowDraft>, root: nat, order: seq<nat>, adds: seq<Addition>)
    requires Complete(drafts, root, order, adds) && OwnNumbers(drafts) && |drafts| <= PARENT_NONE
    requires forall i :: 0 <= i < |drafts| ==> drafts[i].frs < RECORD_NUMBERS && !HasTombstoneFlag(drafts[i].flags)
    ensures Inv(BuiltView(adds))
    ensures forall i: nat :: i < |drafts| ==> LogicalPath(BuiltView(adds), i).Ok?
  {
    EachDraftOnce(drafts, root, order, adds);
    forall k: nat | k < |adds| ensures RowIs(drafts, order, adds, k) {
      assert PlacedOk(drafts, root, order, adds, k);
      ParentsComeFirst(drafts, root, order, adds, k);
    }
    RowsBuild(drafts, order, adds);
    BuiltViewOk(adds);
    forall i: nat | i < |drafts| ensures LogicalPath(BuiltView(adds), i).Ok? {
      OrderedIndexHasPaths(drafts, root, order, adds, i);
    }
  }

  ghost predicate RowIs(drafts: seq<RowDraft>, order: seq<nat>, adds: seq<Addition>, k: nat) {
    k < |adds| && k < |order| && order[k] < |drafts| && ParentFits(adds[k], |adds|)
    && adds[k].fileRef == RefOf(drafts[order[k]].frs) && adds[k].flags == drafts[order[k]].flags
  }

  lemma RowsBuild(drafts: seq<RowDraft>, order: seq<nat>, adds: seq<Addition>)
    requires Distinct(order) && |order| == |adds| <= PARENT_NONE && OwnNumbers(drafts)
    requires forall k: nat :: k < |adds| ==> RowIs(drafts, order, adds, k)
    requires forall i :: 0 <= i < |drafts| ==> drafts[i].frs < RECORD_NUMBERS && !HasTombstoneFlag(drafts[i].flags)
    ensures Buildable(adds)
  {
    forall k | 0 <= k < |adds| ensures ParentFits(adds[k], |adds|) && !HasTombstoneFlag(adds[k].flags) {
      assert RowIs(drafts, order, adds, k);
    }
    forall j, k | 0 <= j < k < |adds| ensures adds[j].fileRef.number != adds[k].fileRef.number {
      assert RowIs(drafts, order, adds, j) && RowIs(drafts, order, adds, k);
    }
  }
}
