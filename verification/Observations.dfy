/**
 What readers see. Walks that climb at most one step more than there are records
 decide exactly whether a path exists, and every observation of an index is an
 observation of its abstract tree.
 */
module Observations {
  import opened Basics
  import opened Records
  import opened Chains
  import opened Paths
  import opened Overlay
  import opened VolumeTree
  import opened Refinement

  // ----- The bounded walk is exact -----

  /** Logical parents of all records, live or not. */
  ghost function LogicalForest(v: View): (f: Forest)
    ensures |f| == LogicalLen(v)
  {
    var f := map i: nat | i < LogicalLen(v) :: LogicalParent(v, i);
    FirstNaturals(f.Keys, LogicalLen(v));
    assert |f.Keys| == |f|;
    f
  }

  lemma {:induction false} FirstNaturals(s: set<nat>, n: nat)
    requires forall i: nat :: i in s <==> i < n
    ensures |s| == n
  {
    if n > 0 {
      FirstNaturals(s - {n - 1}, n - 1);
    } else {
      assert s == {};
    }
  }

  /** The walk yields a path within `fuel` records exactly when the chain does. */
  lemma {:induction false} NamesUpFollowsChain(v: View, index: nat, current: nat, fuel: nat)
    requires StructOk(v) && current < LogicalLen(v)
    ensures NamesUp(v, index, current, fuel).Ok? <==> Chain(LogicalForest(v), current, fuel).Some?
    ensures NamesUp(v, index, current, fuel).Err? ==>
              NamesUp(v, index, current, fuel) == Err(ParentCycle(index))
    decreases fuel
  {
    if fuel > 0 {
      NamePresent(v, current);
      if LogicalParent(v, current).Some? {
        ParentInRange(v, current);
        NamesUpFollowsChain(v, index, LogicalParent(v, current).value, fuel - 1);
      }
    }
  }

  /**
   Cycle detection is exact: the walk returns a path if and only if the parent
   chain reaches a parentless record, and otherwise reports a cycle.
   */
  lemma CycleDetectionExact(v: View, i: nat)
    requires StructOk(v) && i < LogicalLen(v)
    ensures LogicalPath(v, i).Ok? <==> ReachesRoot(LogicalForest(v), i)
    ensures LogicalPath(v, i).Err? ==> LogicalPath(v, i) == Err(ParentCycle(i))
  {
    NamesUpFollowsChain(v, i, i, LogicalLen(v) + 1);
    ChainWithinSize(LogicalForest(v), i, LogicalLen(v) + 1);
  }

  // ----- The base walk is the logical walk without an overlay -----

  function BaseNamesUp(b: Base, index: nat, current: nat, fuel: nat): Result<seq<string>, EsError>
    decreases fuel
  {
    if fuel == 0 then Err(ParentCycle(index))
    else if current >= |b.records| then Err(RecordIndexOutOfRange(current))
    else match BaseName(b, current)
      case Err(e) => Err(e)
      case Ok(name) =>
        if b.records[current].parentIdx == PARENT_NONE then Ok([name])
        else match BaseNamesUp(b, index, b.records[current].parentIdx, fuel - 1)
          case Err(e) => Err(e)
          case Ok(rest) => Ok([name] + rest)
  }

  function PathFromIdx(b: Base, index: nat): Result<string, EsError> {
    match BaseNamesUp(b, index, index, |b.records| + 1)
    case Ok(names) => Ok(PathOf(names))
    case Err(e) => Err(e)
  }

  lemma {:induction false} BaseNamesUpIsLogical(b: Base, index: nat, current: nat, fuel: nat)
    requires BaseOk(b) && current < |b.records|
    ensures BaseNamesUp(b, index, current, fuel) == NamesUp(View(b, EMPTY_DELTA), index, current, fuel)
    decreases fuel
  {
    assert BaseRowOk(b, current);
    if fuel > 0 && b.records[current].parentIdx != PARENT_NONE {
      BaseNamesUpIsLogical(b, index, b.records[current].parentIdx, fuel - 1);
    }
  }

  lemma PathFromIdxExact(b: Base, i: nat)
    requires StructOk(View(b, EMPTY_DELTA)) && i < |b.records|
    ensures PathFromIdx(b, i) == LogicalPath(View(b, EMPTY_DELTA), i)
    ensures PathFromIdx(b, i).Ok? <==> ReachesRoot(LogicalForest(View(b, EMPTY_DELTA)), i)
    ensures PathFromIdx(b, i).Err? ==> PathFromIdx(b, i) == Err(ParentCycle(i))
  {
    BaseNamesUpIsLogical(b, i, i, |b.records| + 1);
    CycleDetectionExact(View(b, EMPTY_DELTA), i);
  }

  // ----- Observations factor through the tree -----

  /** The logical parent of a live record is the live record of its parent number. */
  lemma ParentIsUp(v: View, i: nat)
    requires Inv(v) && i < LogicalLen(v) && Live(v, i)
    ensures NumberAt(v, i) in Abs(v)
    ensures match LogicalParent(v, i)
            case None => Up(Abs(v), NumberAt(v, i)) == None
            case Some(p) => p < LogicalLen(v) && Live(v, p) && Up(Abs(v), NumberAt(v, i)) == Some(NumberAt(v, p))
  {
    AbsAt(v, i);
    assert ParentLive(v, i) && DeltaRowOk(v, i);
    var p := StoredParent(v, i);
    if p.Some? {
      StoredParentInRange(v, i);
      AbsAt(v, p.value);
    } else if i >= BaseLen(v) && i !in v.delta.moved {
      AbsHas(v, MftRecordNumber(v.delta.inserted[i - BaseLen(v)].parentRef));
    }
  }

  /** A live record shows the name and parent of its number in the tree. */
  ghost predicate UpAgrees(v: View, t: Tree, i: nat) {
    i < LogicalLen(v) && Live(v, i) ==>
      && NumberAt(v, i) in t
      && LogicalName(v, i) == Some(t[NumberAt(v, i)].name)
      && match LogicalParent(v, i)
         case None => Up(t, NumberAt(v, i)) == None
         case Some(p) => p < LogicalLen(v) && Live(v, p) && Up(t, NumberAt(v, i)) == Some(NumberAt(v, p))
  }

  lemma TreeIsMirrored(v: View)
    requires Inv(v)
    ensures forall i: nat :: UpAgrees(v, Abs(v), i)
  {
    forall i: nat ensures UpAgrees(v, Abs(v), i) {
      if i < LogicalLen(v) && Live(v, i) {
        ParentIsUp(v, i);
        AbsAt(v, i);
        NamePresent(v, i);
      }
    }
  }

  lemma {:induction false} WalksCorrespond(v: View, t: Tree, index: nat, i: nat, fuel: nat)
    requires forall j: nat :: UpAgrees(v, t, j)
    requires i < LogicalLen(v) && Live(v, i)
    ensures NumberAt(v, i) in t
    ensures NamesUp(v, index, i, fuel) ==
            match TreeNames(t, NumberAt(v, i), fuel)
            case None => Err(ParentCycle(index))
            case Some(names) => Ok(names)
    decreases fuel
  {
    assert UpAgrees(v, t, i);
    if fuel > 0 {
      TreeNamesStep(t, NumberAt(v, i), fuel);
      if LogicalParent(v, i).Some? {
        WalksCorrespond(v, t, index, LogicalParent(v, i).value, fuel - 1);
      }
    }
  }

  lemma {:induction false} FewNumbers(v: View, k: nat, numbers: set<nat>)
    requires k <= LogicalLen(v)
    requires forall n :: n in numbers ==> exists i :: 0 <= i < k && NumberAt(v, i) == n
    ensures |numbers| <= k
  {
    if k > 0 {
      var fewer := numbers - {NumberAt(v, k - 1)};
      forall n | n in fewer ensures exists i :: 0 <= i < k - 1 && NumberAt(v, i) == n {
        var i :| 0 <= i < k && NumberAt(v, i) == n;
      }
      FewNumbers(v, k - 1, fewer);
      assert numbers <= fewer + {NumberAt(v, k - 1)};
      SubsetSize(numbers, fewer + {NumberAt(v, k - 1)});
    } else {
      assert numbers == {};
    }
  }

  lemma SubsetSize<T>(a: set<T>, b: set<T>)
    requires a <= b
    ensures |a| <= |b|
  {
    assert b == a + (b - a);
  }

  lemma TreeFitsIndex(v: View)
    requires Inv(v)
    ensures |Abs(v)| <= LogicalLen(v)
  {
    FewNumbers(v, LogicalLen(v), LiveNumbers(v));
    SubsetSize(Abs(v).Keys, LiveNumbers(v));
    assert |Abs(v)| == |Abs(v).Keys|;
  }

  lemma NamesOfMirror(v: View, t: Tree, i: nat)
    requires forall j: nat :: UpAgrees(v, t, j)
    requires i < LogicalLen(v) && Live(v, i) && |t| <= LogicalLen(v)
    ensures NumberAt(v, i) in t
    ensures NamesUp(v, i, i, LogicalLen(v) + 1) ==
            match TreeNames(t, NumberAt(v, i), |t|)
            case None => Err(ParentCycle(i))
            case Some(names) => Ok(names)
  {
    WalksCorrespond(v, t, i, i, LogicalLen(v) + 1);
    TreeNamesEnough(t, NumberAt(v, i), LogicalLen(v) + 1);
  }

  /** The names on the way up depend on the abstract tree only. */
  lemma NamesFactorThroughTree(v: View, i: nat)
    requires Inv(v) && i < LogicalLen(v) && Live(v, i)
    ensures NamesUp(v, i, i, LogicalLen(v) + 1) ==
            match TreeNames(Abs(v), NumberAt(v, i), |Abs(v)|)
            case None => Err(ParentCycle(i))
            case Some(names) => Ok(names)
  {
    TreeIsMirrored(v);
    TreeFitsIndex(v);
    NamesOfMirror(v, Abs(v), i);
  }

  /** The logical path of a record that shows as number `n` of tree `t`. */
  ghost predicate ShowsPath(v: View, i: nat, t: Tree, n: nat) {
    LogicalPath(v, i) ==
    match TreePath(t, n)
    case Some(path) => Ok(path)
    case None => Err(ParentCycle(i))
  }

  lemma PathFromNames(v: View, t: Tree, i: nat, n: nat)
    requires NamesUp(v, i, i, LogicalLen(v) + 1) ==
             match TreeNames(t, n, |t|)
             case None => Err(ParentCycle(i))
             case Some(names) => Ok(names)
    ensures ShowsPath(v, i, t, n)
  {}

  /** A printed path depends on the abstract tree only, cycles included. */
  lemma PathFactorsThroughTree(v: View, i: nat)
    requires Inv(v) && i < LogicalLen(v) && Live(v, i)
    ensures ShowsPath(v, i, Abs(v), NumberAt(v, i))
  {
    NamesFactorThroughTree(v, i);
    PathFromNames(v, Abs(v), i, NumberAt(v, i));
  }

  /** The listed children of a live record are the children of its number in the tree. */
  lemma ChildrenFactorThroughTree(v: View, p: nat, m: nat)
    requires Inv(v) && p < LogicalLen(v) && Live(v, p)
    ensures m in ChildNumbers(Abs(v), NumberAt(v, p)) <==>
            Lookup(v, m).Some? && Lookup(v, m).value in LogicalChildren(v, p)
  {
    AbsHas(v, m);
    AbsAt(v, p);
    if Lookup(v, m).Some? {
      var c := Lookup(v, m).value;
      ParentIsUp(v, c);
      ChildrenAreParentInverse(v, p, c);
      LiveIsNotDeleted(v, c);
      if LogicalParent(v, c).Some? {
        AbsAt(v, LogicalParent(v, c).value);
      }
    }
  }
}
