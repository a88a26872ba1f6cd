/**
 What a listing returns: exactly the matching children of its directory, or the
 matching records below it, each as often as the child loops list it.
 */
module Listings {
  import opened Basics
  import opened Chains
  import opened Overlay
  import opened Observations
  import opened Matching
  import opened TopScores
  import opened Search
  import opened Ranking
  import opened Results
  import opened PathLookup
  import opened Enumeration

  // ----- How often a record is listed -----

  /** A moved overlay record is listed twice among the children of its directory, any other child once. */
  function Listings(v: View, i: nat): nat { if i >= BaseLen(v) && i in v.delta.moved then 2 else 1 }

  /** How often a record is listed among the children of `p`. */
  function TimesUnder(v: View, p: nat, i: nat): nat {
    if i < LogicalLen(v) && i !in v.delta.deleted && LogicalParent(v, i) == Some(p) then Listings(v, i) else 0
  }

  /** How often it is listed below `s`: for each listing of its directory, as often as among its children. */
  ghost function TimesBelow(v: View, s: nat, i: nat): nat
    requires StructOk(v)
    decreases if UnderRoot(v, i) then 1 + Depth(LogicalForest(v), i) else 0
  {
    if !UnderRoot(v, i) || i in v.delta.deleted || LogicalParent(v, i).None? then 0
    else
      ParentIsHigher(v, i);
      var p := LogicalParent(v, i).value;
      Listings(v, i) * if p == s then 1 else if LogicalIsDir(v, p) then TimesBelow(v, s, p) else 0
  }

  lemma ParentIsHigher(v: View, i: nat)
    requires StructOk(v) && UnderRoot(v, i) && LogicalParent(v, i).Some?
    ensures var p := LogicalParent(v, i).value;
            UnderRoot(v, p) && Depth(LogicalForest(v), p) < Depth(LogicalForest(v), i)
  {
    ParentInRange(v, i);
    DepthOfChild(LogicalForest(v), i);
  }

  lemma {:induction false} BelowIsDeeper(v: View, s: nat, i: nat)
    requires StructOk(v) && UnderRoot(v, s) && TimesBelow(v, s, i) > 0
    ensures UnderRoot(v, i) && Depth(LogicalForest(v), i) > Depth(LogicalForest(v), s)
    decreases if UnderRoot(v, i) then 1 + Depth(LogicalForest(v), i) else 0
  {
    ParentIsHigher(v, i);
    if LogicalParent(v, i).value != s {
      BelowIsDeeper(v, s, LogicalParent(v, i).value);
    }
  }

  /** A record on the stack is listed itself and, if it is a directory, with what is below it. */
  ghost function TimesFrom(v: View, s: nat, i: nat): nat
    requires StructOk(v)
  {
    (if s == i then 1 else 0) + if LogicalIsDir(v, s) then TimesBelow(v, s, i) else 0
  }

  ghost function TimesFromAll(v: View, stack: seq<nat>, i: nat): nat
    requires StructOk(v)
  {
    if stack == [] then 0 else TimesFromAll(v, stack[..|stack| - 1], i) + TimesFrom(v, stack[|stack| - 1], i)
  }

  /** What lies below a child lies below it through the record's own directory. */
  lemma ThroughDirectory(v: View, c: nat, i: nat)
    requires StructOk(v) && UnderRoot(v, c) && UnderRoot(v, i) && i !in v.delta.deleted && LogicalParent(v, i).Some?
    ensures var p := LogicalParent(v, i).value;
            TimesFrom(v, c, i) ==
            (if c == i then 1 else 0) + Listings(v, i) * if LogicalIsDir(v, p) then TimesFrom(v, c, p) else 0
  {
    var p := LogicalParent(v, i).value;
    ParentIsHigher(v, i);
    if TimesBelow(v, p, p) > 0 { BelowIsDeeper(v, p, p); }
  }

  lemma {:induction false} AllThroughDirectory(v: View, kids: seq<nat>, i: nat)
    requires StructOk(v) && AllUnderRoot(v, kids) && UnderRoot(v, i) && i !in v.delta.deleted && LogicalParent(v, i).Some?
    ensures var p := LogicalParent(v, i).value;
            TimesFromAll(v, kids, i) ==
            Times(kids, i) + Listings(v, i) * if LogicalIsDir(v, p) then TimesFromAll(v, kids, p) else 0
  {
    if kids != [] {
      var init, last, p := kids[..|kids| - 1], kids[|kids| - 1], LogicalParent(v, i).value;
      assert UnderRoot(v, kids[|kids| - 1]);
      AllThroughDirectory(v, init, i);
      ThroughDirectory(v, last, i);
      TimesSnoc(kids, i);
      Distributes(Listings(v, i), TimesFromAll(v, init, p), TimesFrom(v, last, p));
    }
  }

  lemma TimesSnoc(s: seq<nat>, i: nat)
    requires s != []
    ensures Times(s, i) == Times(s[..|s| - 1], i) + if s[|s| - 1] == i then 1 else 0
  {
    assert s == s[..|s| - 1] + [s[|s| - 1]];
  }

  lemma Distributes(n: nat, a: nat, b: nat)
    ensures n * (a + b) == n * a + n * b
  {}

  lemma TimesOfChild(v: View, p: nat, i: nat)
    requires StructOk(v)
    ensures Times(LogicalChildren(v, p), i) == TimesUnder(v, p, i)
  {
    ChildrenAreParentInverse(v, p, i);
    if i in LogicalChildren(v, p) { ChildMultiplicity(v, p, i); }
  }

  /** What is listed below a record is listed from its children. */
  lemma {:induction false} BelowIsFromChildren(v: View, s: nat, i: nat)
    requires StructOk(v) && UnderRoot(v, s)
    ensures TimesBelow(v, s, i) == TimesFromAll(v, LogicalChildren(v, s), i)
    decreases if UnderRoot(v, i) then 1 + Depth(LogicalForest(v), i) else 0
  {
    var kids := LogicalChildren(v, s);
    ChildrenUnderRoot(v, s);
    if UnderRoot(v, i) && i !in v.delta.deleted && LogicalParent(v, i).Some? {
      var p := LogicalParent(v, i).value;
      ParentIsHigher(v, i);
      BelowIsFromChildren(v, s, p);
      AllThroughDirectory(v, kids, i);
      TimesOfChild(v, s, i);
      if TimesBelow(v, s, s) > 0 { BelowIsDeeper(v, s, s); }
    } else {
      forall k | 0 <= k < |kids| ensures kids[k] != i {
        assert kids[k] in kids && UnderRoot(v, kids[k]);
        ChildrenAreParentInverse(v, s, kids[k]);
      }
      NothingFrom(v, kids, i);
    }
  }

  lemma {:induction false} NothingFrom(v: View, kids: seq<nat>, i: nat)
    requires StructOk(v) && !(UnderRoot(v, i) && i !in v.delta.deleted && LogicalParent(v, i).Some?)
    requires forall k :: 0 <= k < |kids| ==> kids[k] != i
    ensures TimesFromAll(v, kids, i) == 0
  {
    if kids != [] {
      NothingFrom(v, kids[..|kids| - 1], i);
    }
  }

  lemma {:induction false} FromAllConcat(v: View, a: seq<nat>, b: seq<nat>, i: nat)
    requires StructOk(v)
    ensures TimesFromAll(v, a + b, i) == TimesFromAll(v, a, i) + TimesFromAll(v, b, i)
    decreases |b|
  {
    if b == [] {
      assert a + b == a;
    } else {
      assert (a + b)[..|a + b| - 1] == a + b[..|b| - 1];
      FromAllConcat(v, a, b[..|b| - 1], i);
    }
  }

  lemma TimesConcat(a: seq<nat>, b: seq<nat>, i: nat)
    ensures Times(a + b, i) == Times(a, i) + Times(b, i)
  {}

  /** The stack loop lists each record as often as it is listed from the stack. */
  lemma {:induction false} DrainLists(v: View, stack: seq<nat>, i: nat)
    requires StructOk(v) && AllUnderRoot(v, stack)
    ensures Times(Drain(v, stack), i) == TimesFromAll(v, stack, i)
    decreases StackVisits(v, stack)
  {
    if stack != [] {
      var init, top := stack[..|stack| - 1], stack[|stack| - 1];
      PopShrinks(v, stack);
      DrainLists(v, init + Expand(v, top), i);
      TimesConcat([top], Drain(v, init + Expand(v, top)), i);
      FromAllConcat(v, init, Expand(v, top), i);
      assert UnderRoot(v, stack[|stack| - 1]);
      BelowIsFromChildren(v, top, i);
    }
  }

  /** The recursive listing lists each record below its directory exactly so often. */
  lemma DescendantsAreListed(v: View, root: nat, i: nat)
    requires StructOk(v) && UnderRoot(v, root)
    ensures Times(Descendants(v, root), i) == TimesBelow(v, root, i)
    ensures TimesBelow(v, root, i) > 0 <==> IsBelow(v, root, i)
  {
    ChildrenUnderRoot(v, root);
    DrainLists(v, LogicalChildren(v, root), i);
    BelowIsFromChildren(v, root, i);
    DescendantsAreBelow(v, root, i);
    assert i in Descendants(v, root) <==> Times(Descendants(v, root), i) > 0;
  }

  // ----- Points of listed records -----

  function PointsOfIds(v: View, fold: Fold, folded: string, ids: seq<nat>): seq<nat> {
    if ids == [] then []
    else PointsOfIds(v, fold, folded, ids[..|ids| - 1]) + PointsAt(v, fold, folded, ids[|ids| - 1])
  }

  lemma {:induction false} PointsOfIdsConcat(v: View, fold: Fold, folded: string, a: seq<nat>, b: seq<nat>)
    ensures PointsOfIds(v, fold, folded, a + b) == PointsOfIds(v, fold, folded, a) + PointsOfIds(v, fold, folded, b)
    decreases |b|
  {
    if b == [] {
      assert a + b == a;
    } else {
      assert (a + b)[..|a + b| - 1] == a + b[..|b| - 1];
      PointsOfIdsConcat(v, fold, folded, a, b[..|b| - 1]);
    }
  }

  lemma PointsOfIdsDropAt(v: View, fold: Fold, folded: string, ids: seq<nat>, j: nat)
    requires j < |ids|
    ensures multiset(PointsOfIds(v, fold, folded, ids)) ==
            multiset(PointsOfIds(v, fold, folded, DropAt(ids, j))) + multiset(PointsAt(v, fold, folded, ids[j]))
  {
    assert ids == (ids[..j] + [ids[j]]) + ids[j + 1..];
    assert (ids[..j] + [ids[j]])[..j] == ids[..j];
    PointsOfIdsConcat(v, fold, folded, ids[..j] + [ids[j]], ids[j + 1..]);
    PointsOfIdsConcat(v, fold, folded, ids[..j], ids[j + 1..]);
  }

  lemma {:induction false} PointsOfIdsPermutation(v: View, fold: Fold, folded: string, a: seq<nat>, b: seq<nat>)
    requires multiset(a) == multiset(b)
    ensures multiset(PointsOfIds(v, fold, folded, a)) == multiset(PointsOfIds(v, fold, folded, b))
    decreases |a|
  {
    if a == [] {
      assert |multiset(b)| == |b|;
    } else {
      assert a[0] in multiset(b);
      var j :| 0 <= j < |b| && b[j] == a[0];
      SameTailBag(a, b, 0, j);
      PointsOfIdsPermutation(v, fold, folded, DropAt(a, 0), DropAt(b, j));
      PointsOfIdsDropAt(v, fold, folded, a, 0);
      PointsOfIdsDropAt(v, fold, folded, b, j);
    }
  }

  // ----- What is listed -----

  /** A record lists itself exactly if it answers the query. */
  lemma ListOneAnswers(v: View, env: Env, folded: string, i: nat, r: SearchResult)
    requires i < LogicalLen(v)
    ensures ShowsAs(v, env, folded, i, r) <==> Answers(v, env.fold, folded, i, r)
  {}

  lemma {:induction false} ListedPoints(v: View, env: Env, folded: string, ids: seq<nat>)
    requires ListAll(v, env, folded, ids).Ok? && forall k :: 0 <= k < |ids| ==> ids[k] < LogicalLen(v)
    ensures ResultPoints(ListAll(v, env, folded, ids).value) == PointsOfIds(v, env.fold, folded, ids)
  {
    if ids != [] {
      ListedPoints(v, env, folded, ids[..|ids| - 1]);
    }
  }

  /** A listing of some records, ranked and cut: `all` lists the same records as often, in any order. */
  lemma RankedListing(v: View, env: Env, folded: string, ids: seq<nat>, all: seq<nat>, limit: nat, r: SearchResult)
    requires StructOk(v) && SortLaws(env) && AllUnderRoot(v, ids) && multiset(all) == multiset(ids)
    ensures ListAll(v, env, folded, ids).Ok?
    ensures var rs := RankAndLimit(env, ListAll(v, env, folded, ids).value, limit);
            var points := PointsOfIds(v, env.fold, folded, all);
            var answered := exists i: nat :: i in all && Answers(v, env.fold, folded, i, r);
            && Descending(ResultPoints(rs)) && KeepsTop(ResultPoints(rs), points, limit)
            && (r in rs ==> answered) && (|points| <= limit ==> (answered ==> r in rs))
  {
    ListingUnderRootSucceeds(v, env, folded, ids);
    var found := ListAll(v, env, folded, ids).value;
    forall k | 0 <= k < |ids| ensures ids[k] < LogicalLen(v) { assert UnderRoot(v, ids[k]); }
    ListedPoints(v, env, folded, ids);
    PointsOfIdsPermutation(v, env.fold, folded, ids, all);
    RankKeepsTop(env, found, limit);
    KeepsTopPermutation(ResultPoints(RankAndLimit(env, found, limit)), ResultPoints(found),
                        PointsOfIds(v, env.fold, folded, all), limit);
    RankedSelects(env, found, limit, r);
    ListedShows(v, env, folded, ids, r);
    forall i: nat ensures i in ids <==> i in all { assert i in multiset(ids) <==> i in multiset(all); }
    forall i: nat | i in ids ensures ShowsAs(v, env, folded, i, r) <==> Answers(v, env.fold, folded, i, r) {
      ListOneAnswers(v, env, folded, i, r);
    }
    assert |found| == |ResultPoints(found)|;
    SameBagSize(ResultPoints(found), PointsOfIds(v, env.fold, folded, all));
  }

  lemma SameBagSize(a: seq<nat>, b: seq<nat>)
    requires multiset(a) == multiset(b)
    ensures |a| == |b|
  {
    assert |multiset(a)| == |a| && |multiset(b)| == |b|;
  }

  lemma TimesDetermine(a: seq<nat>, b: seq<nat>)
    requires forall i: nat :: Times(a, i) == Times(b, i)
    ensures multiset(a) == multiset(b)
  {
    forall i: nat ensures multiset(a)[i] == multiset(b)[i] { assert Times(a, i) == Times(b, i); }
  }

  /**
   A recursive listing: each result answers for a record below the directory, the
   best come first, and they are the best of all that is listed there, each
   record as often as `TimesBelow` says. With room for all, no answer is missing.
   */
  lemma RecursiveListing(v: View, env: Env, path: string, query: string, limit: nat, all: seq<nat>, r: SearchResult)
    requires StructOk(v) && SortLaws(env) && Resolve(v, env.fold, path).Ok?
    requires forall i: nat :: Times(all, i) == TimesBelow(v, Resolve(v, env.fold, path).value, i)
    ensures var root, out := Resolve(v, env.fold, path).value, Enumerate(v, env, path, query, true, limit);
            var points := PointsOfIds(v, env.fold, env.fold(query), all);
            var answered := exists i: nat :: IsBelow(v, root, i) && Answers(v, env.fold, env.fold(query), i, r);
            && out.Ok? && Descending(ResultPoints(out.value)) && KeepsTop(ResultPoints(out.value), points, limit)
            && (r in out.value ==> answered) && (|points| <= limit ==> (answered ==> r in out.value))
  {
    var root := Resolve(v, env.fold, path).value;
    ResolvedReachesRoot(v, env.fold, path);
    CandidatesUnderRoot(v, root, true);
    forall i: nat ensures Times(Descendants(v, root), i) == Times(all, i) && (i in all <==> IsBelow(v, root, i)) {
      DescendantsAreListed(v, root, i);
      assert i in all <==> Times(all, i) > 0;
    }
    TimesDetermine(all, Descendants(v, root));
    RankedListing(v, env, env.fold(query), Descendants(v, root), all, limit, r);
  }

  /** A flat listing is of the directory's children instead. */
  lemma FlatListing(v: View, env: Env, path: string, query: string, limit: nat, all: seq<nat>, r: SearchResult)
    requires StructOk(v) && SortLaws(env) && Resolve(v, env.fold, path).Ok?
    requires forall i: nat :: Times(all, i) == TimesUnder(v, Resolve(v, env.fold, path).value, i)
    ensures var root, out := Resolve(v, env.fold, path).value, Enumerate(v, env, path, query, false, limit);
            var points := PointsOfIds(v, env.fold, env.fold(query), all);
            var answered := exists i: nat :: LogicalParent(v, i) == Some(root) && Answers(v, env.fold, env.fold(query), i, r);
            && out.Ok? && Descending(ResultPoints(out.value)) && KeepsTop(ResultPoints(out.value), points, limit)
            && (r in out.value ==> answered) && (|points| <= limit ==> (answered ==> r in out.value))
  {
    var root := Resolve(v, env.fold, path).value;
    ResolvedReachesRoot(v, env.fold, path);
    CandidatesUnderRoot(v, root, false);
    var kids := LogicalChildren(v, root);
    forall i: nat
      ensures Times(kids, i) == Times(all, i)
      ensures Answers(v, env.fold, env.fold(query), i, r) ==> (i in all <==> LogicalParent(v, i) == Some(root))
      ensures i in all ==> LogicalParent(v, i) == Some(root)
    {
      TimesOfChild(v, root, i);
      assert i in all <==> Times(all, i) > 0;
    }
    TimesDetermine(all, kids);
    RankedListing(v, env, env.fold(query), kids, all, limit, r);
  }

  /** Lists with these multiplicities exist: what the loops collect. */
  lemma ListingsExist(v: View, root: nat) returns (below: seq<nat>, under: seq<nat>)
    requires StructOk(v) && UnderRoot(v, root)
    ensures forall i: nat :: Times(below, i) == TimesBelow(v, root, i) && Times(under, i) == TimesUnder(v, root, i)
  {
    below, under := Descendants(v, root), LogicalChildren(v, root);
    forall i: nat ensures Times(below, i) == TimesBelow(v, root, i) && Times(under, i) == TimesUnder(v, root, i) {
      DescendantsAreListed(v, root, i);
      TimesOfChild(v, root, i);
    }
  }
}
