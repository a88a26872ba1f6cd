/**
 Listing a directory and everything below it (index.rs). The recursive listing
 keeps a stack and no record of what it has seen, yet it ends: it starts at a
 record that a path lookup found, so every record it meets is some number of
 steps below a root.
 */
module Enumeration {
  import opened Basics
  import opened Records
  import opened Chains
  import opened Overlay
  import opened Observations
  import opened TopScores
  import opened Search
  import opened PathLookup

  // ----- Why the stack runs empty -----

  ghost predicate UnderRoot(v: View, i: nat) { i < LogicalLen(v) && ReachesRoot(LogicalForest(v), i) }

  ghost predicate AllUnderRoot(v: View, stack: seq<nat>) { forall k :: 0 <= k < |stack| ==> UnderRoot(v, stack[k]) }

  /** How many levels can still lie below a record. */
  ghost function LevelsBelow(v: View, i: nat): nat {
    if UnderRoot(v, i) then LogicalLen(v) - Depth(LogicalForest(v), i) else 0
  }

  /** Visits that a record on the stack can still cause, counted down to a number of levels. */
  ghost function Visits(v: View, i: nat, levels: nat): (n: nat)
    ensures n > 0
    decreases levels, 0
  {
    1 + if levels == 0 then 0 else VisitsAll(v, LogicalChildren(v, i), levels - 1)
  }

  ghost function VisitsAll(v: View, s: seq<nat>, levels: nat): nat
    decreases levels, 1 + |s|
  {
    if s == [] then 0 else VisitsAll(v, s[..|s| - 1], levels) + Visits(v, s[|s| - 1], levels)
  }

  ghost function StackVisits(v: View, stack: seq<nat>): nat {
    if stack == [] then 0
    else StackVisits(v, stack[..|stack| - 1]) + Visits(v, stack[|stack| - 1], LevelsBelow(v, stack[|stack| - 1]))
  }

  lemma ChildIsBelow(v: View, p: nat, c: nat)
    requires StructOk(v) && UnderRoot(v, p) && c in LogicalChildren(v, p)
    ensures UnderRoot(v, c) && LevelsBelow(v, c) + 1 == LevelsBelow(v, p) && LevelsBelow(v, p) > 0
  {
    ChildrenAreParentInverse(v, p, c);
    DepthOfChild(LogicalForest(v), c);
  }

  lemma {:induction false} ChildrenVisits(v: View, stack: seq<nat>, kids: seq<nat>, levels: nat)
    requires forall k :: 0 <= k < |kids| ==> LevelsBelow(v, kids[k]) == levels
    ensures StackVisits(v, stack + kids) == StackVisits(v, stack) + VisitsAll(v, kids, levels)
    decreases |kids|
  {
    if kids == [] {
      assert stack + kids == stack;
    } else {
      assert (stack + kids)[..|stack + kids| - 1] == stack + kids[..|kids| - 1];
      ChildrenVisits(v, stack, kids[..|kids| - 1], levels);
    }
  }

  function Expand(v: View, i: nat): seq<nat> { if LogicalIsDir(v, i) then LogicalChildren(v, i) else [] }

  lemma ExpandIsBelow(v: View, i: nat)
    requires StructOk(v) && UnderRoot(v, i)
    ensures AllUnderRoot(v, Expand(v, i))
    ensures Expand(v, i) != [] ==> LevelsBelow(v, i) > 0
    ensures forall k :: 0 <= k < |Expand(v, i)| ==> LevelsBelow(v, Expand(v, i)[k]) == LevelsBelow(v, i) - 1
  {
    var kids := Expand(v, i);
    forall k | 0 <= k < |kids|
      ensures UnderRoot(v, kids[k]) && LevelsBelow(v, kids[k]) + 1 == LevelsBelow(v, i) && LevelsBelow(v, i) > 0
    {
      assert kids[k] in kids;
      ChildIsBelow(v, i, kids[k]);
    }
  }

  lemma ExpandShrinks(v: View, init: seq<nat>, i: nat)
    requires StructOk(v) && UnderRoot(v, i)
    ensures StackVisits(v, init + Expand(v, i)) < StackVisits(v, init) + Visits(v, i, LevelsBelow(v, i))
  {
    ExpandIsBelow(v, i);
    if Expand(v, i) == [] {
      assert init + Expand(v, i) == init;
    } else {
      ChildrenVisits(v, init, Expand(v, i), LevelsBelow(v, i) - 1);
    }
  }

  /** Replacing the top of the stack by its children leaves fewer visits to make. */
  lemma PopShrinks(v: View, stack: seq<nat>)
    requires StructOk(v) && AllUnderRoot(v, stack) && stack != []
    ensures var rest := stack[..|stack| - 1] + Expand(v, stack[|stack| - 1]);
            AllUnderRoot(v, rest) && StackVisits(v, rest) < StackVisits(v, stack)
  {
    ExpandIsBelow(v, stack[|stack| - 1]);
    ExpandShrinks(v, stack[..|stack| - 1], stack[|stack| - 1]);
  }

  /** The records visited from a stack, in order of visit. */
  function Drain(v: View, stack: seq<nat>): seq<nat>
    requires StructOk(v) && AllUnderRoot(v, stack)
    decreases StackVisits(v, stack)
  {
    if stack == [] then []
    else
      PopShrinks(v, stack);
      [stack[|stack| - 1]] + Drain(v, stack[..|stack| - 1] + Expand(v, stack[|stack| - 1]))
  }

  lemma ChildrenUnderRoot(v: View, p: nat)
    requires StructOk(v) && UnderRoot(v, p)
    ensures AllUnderRoot(v, LogicalChildren(v, p))
  {
    var kids := LogicalChildren(v, p);
    forall k | 0 <= k < |kids| ensures UnderRoot(v, kids[k]) {
      assert kids[k] in kids;
      ChildIsBelow(v, p, kids[k]);
    }
  }

  function Descendants(v: View, root: nat): seq<nat>
    requires StructOk(v) && UnderRoot(v, root)
  {
    ChildrenUnderRoot(v, root);
    Drain(v, LogicalChildren(v, root))
  }

  // ----- Which records are visited -----

  /** A record that is not deleted, below `root` through directories that are not deleted. */
  ghost predicate Below(v: View, root: nat, i: nat, steps: nat)
    decreases steps
  {
    && steps > 0 && i < LogicalLen(v) && i !in v.delta.deleted && LogicalParent(v, i).Some?
    && var p := LogicalParent(v, i).value;
       p == root || (LogicalIsDir(v, p) && Below(v, root, p, steps - 1))
  }

  ghost predicate IsBelow(v: View, root: nat, i: nat) { exists steps: nat :: Below(v, root, i, steps) }

  /** Everything listed on the way is the stack, or a child of a directory that was listed. */
  lemma {:induction false} DrainedFrom(v: View, root: nat, stack: seq<nat>, i: nat)
    requires StructOk(v) && AllUnderRoot(v, stack) && i in Drain(v, stack)
    requires forall k :: 0 <= k < |stack| ==> IsBelow(v, root, stack[k])
    ensures IsBelow(v, root, i)
    decreases StackVisits(v, stack)
  {
    var top := stack[|stack| - 1];
    var rest := stack[..|stack| - 1] + Expand(v, top);
    PopShrinks(v, stack);
    if i != top {
      forall k | 0 <= k < |rest| ensures IsBelow(v, root, rest[k]) {
        if k >= |stack| - 1 {
          assert rest[k] in Expand(v, top);
          ChildrenAreParentInverse(v, top, rest[k]);
          var steps: nat :| Below(v, root, top, steps);
          assert Below(v, root, rest[k], steps + 1);
        }
      }
      DrainedFrom(v, root, rest, i);
    }
  }

  /** The listing contains its stack. */
  lemma {:induction false} DrainsStack(v: View, stack: seq<nat>, i: nat)
    requires StructOk(v) && AllUnderRoot(v, stack) && i in stack
    ensures i in Drain(v, stack)
    decreases StackVisits(v, stack)
  {
    PopShrinks(v, stack);
    if i != stack[|stack| - 1] {
      var rest := stack[..|stack| - 1] + Expand(v, stack[|stack| - 1]);
      assert i in stack[..|stack| - 1];
      DrainsStack(v, rest, i);
    }
  }

  /** The listing is closed under children of the directories it lists. */
  lemma {:induction false} DrainIsClosed(v: View, stack: seq<nat>, p: nat, c: nat)
    requires StructOk(v) && AllUnderRoot(v, stack) && p in Drain(v, stack)
    requires LogicalIsDir(v, p) && c in LogicalChildren(v, p)
    ensures c in Drain(v, stack)
    decreases StackVisits(v, stack)
  {
    var top := stack[|stack| - 1];
    var rest := stack[..|stack| - 1] + Expand(v, top);
    PopShrinks(v, stack);
    if p == top {
      assert c in rest;
      DrainsStack(v, rest, c);
    } else {
      DrainIsClosed(v, rest, p, c);
    }
  }

  lemma {:induction false} BelowIsDrained(v: View, root: nat, i: nat, steps: nat)
    requires StructOk(v) && UnderRoot(v, root) && Below(v, root, i, steps)
    ensures i in Descendants(v, root)
    decreases steps
  {
    var p := LogicalParent(v, i).value;
    ChildrenUnderRoot(v, root);
    ChildrenAreParentInverse(v, p, i);
    if p == root {
      DrainsStack(v, LogicalChildren(v, root), i);
    } else {
      BelowIsDrained(v, root, p, steps - 1);
      DrainIsClosed(v, LogicalChildren(v, root), p, i);
    }
  }

  /** The recursive listing visits, as a set, exactly the records below its start. */
  lemma DescendantsAreBelow(v: View, root: nat, i: nat)
    requires StructOk(v) && UnderRoot(v, root)
    ensures i in Descendants(v, root) <==> IsBelow(v, root, i)
  {
    ChildrenUnderRoot(v, root);
    var kids := LogicalChildren(v, root);
    if i in Descendants(v, root) {
      forall k | 0 <= k < |kids| ensures IsBelow(v, root, kids[k]) {
        assert kids[k] in kids;
        ChildrenAreParentInverse(v, root, kids[k]);
        assert Below(v, root, kids[k], 1);
      }
      DrainedFrom(v, root, kids, i);
    }
    if steps: nat :| Below(v, root, i, steps) {
      BelowIsDrained(v, root, i, steps);
    }
  }

  /** Whatever is listed has a path. */
  lemma {:induction false} DrainUnderRoot(v: View, stack: seq<nat>)
    requires StructOk(v) && AllUnderRoot(v, stack)
    ensures AllUnderRoot(v, Drain(v, stack))
    decreases StackVisits(v, stack)
  {
    if stack != [] {
      PopShrinks(v, stack);
      DrainUnderRoot(v, stack[..|stack| - 1] + Expand(v, stack[|stack| - 1]));
    }
  }

  // ----- The listing as results -----

  /** A listed record that matches the query, or the error that its path raises. */
  function ListOne(v: View, env: Env, folded: string, i: nat): Result<seq<SearchResult>, EsError> {
    match MatchOf(env, folded, i, VisitListed(v, i))
    case None => Ok([])
    case Some(m) =>
      match LogicalPath(v, i)
      case Err(e) => Err(e)
      case Ok(path) =>
        Ok([SearchResult(path, NameOrEmpty(v, i), LogicalIsDir(v, i), m.points, m.highlight)])
  }

  function NameOrEmpty(v: View, i: nat): string {
    match LogicalName(v, i) case Some(name) => name case None => ""
  }

  /** The first error ends the listing. */
  function ListAll(v: View, env: Env, folded: string, ids: seq<nat>): Result<seq<SearchResult>, EsError> {
    if ids == [] then Ok([])
    else match ListAll(v, env, folded, ids[..|ids| - 1])
      case Err(e) => Err(e)
      case Ok(before) =>
        match ListOne(v, env, folded, ids[|ids| - 1])
        case Err(e) => Err(e)
        case Ok(found) => Ok(before + found)
  }

  function Candidates(v: View, root: nat, recursive: bool): seq<nat>
    requires StructOk(v) && UnderRoot(v, root)
  {
    if recursive then Descendants(v, root) else LogicalChildren(v, root)
  }

  function Enumerate(v: View, env: Env, path: string, query: string, recursive: bool, limit: nat)
      : Result<seq<SearchResult>, EsError>
    requires StructOk(v)
  {
    if limit == 0 then Ok([])
    else match Resolve(v, env.fold, path)
      case Err(e) => Err(e)
      case Ok(root) =>
        ResolvedReachesRoot(v, env.fold, path);
        match ListAll(v, env, env.fold(query), Candidates(v, root, recursive))
        case Err(e) => Err(e)
        case Ok(found) => Ok(Truncate(env.sortResults(found), limit))
  }

  lemma {:induction false} ListingUnderRootSucceeds(v: View, env: Env, folded: string, ids: seq<nat>)
    requires StructOk(v) && AllUnderRoot(v, ids)
    ensures ListAll(v, env, folded, ids).Ok?
  {
    if ids != [] {
      ListingUnderRootSucceeds(v, env, folded, ids[..|ids| - 1]);
      assert UnderRoot(v, ids[|ids| - 1]);
      CycleDetectionExact(v, ids[|ids| - 1]);
    }
  }

  lemma CandidatesUnderRoot(v: View, root: nat, recursive: bool)
    requires StructOk(v) && UnderRoot(v, root)
    ensures AllUnderRoot(v, Candidates(v, root, recursive))
  {
    ChildrenUnderRoot(v, root);
    DrainUnderRoot(v, LogicalChildren(v, root));
  }

  /** Listing a directory fails only if the directory is not found: no cycle elsewhere can break it. */
  lemma EnumerateFailsOnlyOnLookup(v: View, env: Env, path: string, query: string, recursive: bool, limit: nat)
    requires StructOk(v) && limit > 0
    ensures Enumerate(v, env, path, query, recursive, limit).Ok? <==> Resolve(v, env.fold, path).Ok?
  {
    if Resolve(v, env.fold, path).Ok? {
      ResolvedReachesRoot(v, env.fold, path);
      var root := Resolve(v, env.fold, path).value;
      CandidatesUnderRoot(v, root, recursive);
      ListingUnderRootSucceeds(v, env, env.fold(query), Candidates(v, root, recursive));
    }
  }

  /** Record `i` matches the query and shows as `r`. */
  ghost predicate ShowsAs(v: View, env: Env, folded: string, i: nat, r: SearchResult) {
    ListOne(v, env, folded, i) == Ok([r])
  }

  lemma {:induction false} ListedShows(v: View, env: Env, folded: string, ids: seq<nat>, r: SearchResult)
    requires ListAll(v, env, folded, ids).Ok?
    ensures r in ListAll(v, env, folded, ids).value <==> exists i :: i in ids && ShowsAs(v, env, folded, i, r)
  {
    if ids != [] {
      var init, last := ids[..|ids| - 1], ids[|ids| - 1];
      ListedShows(v, env, folded, init, r);
      forall i ensures i in ids <==> i in init || i == last {}
      if r in ListOne(v, env, folded, last).value { assert ShowsAs(v, env, folded, last, r); }
    }
  }

  /** Before ranking, a recursive listing holds exactly the matching records below its directory. */
  lemma RecursiveListingIsExact(v: View, env: Env, folded: string, root: nat, r: SearchResult)
    requires StructOk(v) && UnderRoot(v, root)
    ensures ListAll(v, env, folded, Descendants(v, root)).Ok?
    ensures r in ListAll(v, env, folded, Descendants(v, root)).value <==>
            exists i :: IsBelow(v, root, i) && ShowsAs(v, env, folded, i, r)
  {
    var ids := Descendants(v, root);
    CandidatesUnderRoot(v, root, true);
    ListingUnderRootSucceeds(v, env, folded, ids);
    ListedShows(v, env, folded, ids, r);
    forall i: nat ensures i in ids <==> IsBelow(v, root, i) {
      DescendantsAreBelow(v, root, i);
    }
  }
}
