/**
 Parent chains and the pigeonhole argument behind the bounded walks of
 `path_from_idx` and `logical_path`.

 A forest maps each node to its parent, or to None for a root. Nothing forbids
 cycles: the walk must find out by itself.
 */
module Chains {
  import opened Basics

  type Forest = map<nat, Option<nat>>

  /** The nodes from `n` up to a root, if a root is met within `fuel` nodes. */
  function Chain(f: Forest, n: nat, fuel: nat): (c: Option<seq<nat>>)
    ensures c.Some? ==> 0 < |c.value| <= fuel && c.value[0] == n
    decreases fuel
  {
    if fuel == 0 || n !in f then None
    else if f[n].None? then Some([n])
    else match Chain(f, f[n].value, fuel - 1)
      case None => None
      case Some(rest) => Some([n] + rest)
  }

  ghost predicate ReachesRoot(f: Forest, n: nat) { exists fuel: nat :: Chain(f, n, fuel).Some? }

  lemma {:induction false} ChainMonotone(f: Forest, n: nat, fuel: nat, more: nat)
    requires Chain(f, n, fuel).Some? && fuel <= more
    ensures Chain(f, n, more) == Chain(f, n, fuel)
    decreases fuel
  {
    if f[n].Some? {
      ChainMonotone(f, f[n].value, fuel - 1, more - 1);
    }
  }

  /** Two successful walks from one node are the same walk. */
  lemma ChainDeterministic(f: Forest, n: nat, a: nat, b: nat)
    requires Chain(f, n, a).Some? && Chain(f, n, b).Some?
    ensures Chain(f, n, a) == Chain(f, n, b)
  {
    ChainMonotone(f, n, a, a + b);
    ChainMonotone(f, n, b, a + b);
  }

  /** Every suffix of a chain is the chain of the node it starts with. */
  lemma {:induction false} ChainSuffix(f: Forest, n: nat, fuel: nat, k: nat)
    requires Chain(f, n, fuel).Some? && k < |Chain(f, n, fuel).value|
    ensures var c := Chain(f, n, fuel).value;
            c[k] in f && Chain(f, c[k], fuel) == Some(c[k..])
    decreases fuel
  {
    var c := Chain(f, n, fuel).value;
    if k > 0 {
      ChainSuffix(f, f[n].value, fuel - 1, k - 1);
      assert c[1..][k - 1..] == c[k..];
      ChainMonotone(f, c[k], fuel - 1, fuel);
    }
  }

  lemma ChainMembers(f: Forest, n: nat, fuel: nat)
    requires Chain(f, n, fuel).Some?
    ensures forall m :: m in Chain(f, n, fuel).value ==> m in f
  {
    var c := Chain(f, n, fuel).value;
    forall k | 0 <= k < |c| ensures c[k] in f {
      ChainSuffix(f, n, fuel, k);
    }
  }

  lemma {:induction false} ChainDistinct(f: Forest, n: nat, fuel: nat)
    requires Chain(f, n, fuel).Some?
    ensures Distinct(Chain(f, n, fuel).value)
  {
    var c := Chain(f, n, fuel).value;
    forall i, j | 0 <= i < j < |c| ensures c[i] != c[j] {
      ChainSuffix(f, n, fuel, i);
      ChainSuffix(f, n, fuel, j);
    }
  }

  /** The shortest fuel that works is the length of the chain. */
  lemma {:induction false} ChainNeedsItsLength(f: Forest, n: nat, fuel: nat)
    requires Chain(f, n, fuel).Some?
    ensures Chain(f, n, |Chain(f, n, fuel).value|) == Chain(f, n, fuel)
    decreases fuel
  {
    if f[n].Some? {
      ChainNeedsItsLength(f, f[n].value, fuel - 1);
    }
  }

  /** Pigeonhole: as many steps as there are nodes decide the question. */
  lemma ChainWithinSize(f: Forest, n: nat, fuel: nat)
    requires |f| <= fuel
    ensures Chain(f, n, fuel).Some? <==> ReachesRoot(f, n)
    ensures Chain(f, n, fuel) == Chain(f, n, |f|)
  {
    if ReachesRoot(f, n) {
      var k: nat :| Chain(f, n, k).Some?;
      var c := Chain(f, n, k).value;
      ChainDistinct(f, n, k);
      ChainMembers(f, n, k);
      DistinctFits(c, f.Keys);
      assert |f.Keys| == |f|;
      ChainNeedsItsLength(f, n, k);
      ChainMonotone(f, n, |c|, fuel);
      ChainMonotone(f, n, |c|, |f|);
    }
  }

  /** Number of steps from `n` to its root. */
  ghost function Depth(f: Forest, n: nat): (d: nat)
    requires ReachesRoot(f, n)
    ensures d < |f|
  {
    ChainWithinSize(f, n, |f|);
    |Chain(f, n, |f|).value| - 1
  }

  lemma DepthOfChild(f: Forest, n: nat)
    requires n in f && f[n].Some?
    ensures ReachesRoot(f, n) <==> ReachesRoot(f, f[n].value)
    ensures ReachesRoot(f, n) ==> Depth(f, n) == Depth(f, f[n].value) + 1
  {
    var p := f[n].value;
    if ReachesRoot(f, n) {
      var k: nat :| Chain(f, n, k).Some?;
      assert Chain(f, p, k - 1).Some?;
    }
    if ReachesRoot(f, p) {
      var k: nat :| Chain(f, p, k).Some?;
      assert Chain(f, n, k + 1).Some?;
      ChainWithinSize(f, p, |f|);
      ChainWithinSize(f, n, |f| + 1);
      assert Chain(f, n, |f| + 1).value == [n] + Chain(f, p, |f|).value;
    }
  }
}
