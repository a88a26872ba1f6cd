/**
 Nothing is lost and nothing counted twice: what the root propagates is the sum
 of the streams of every record below it, each counted once however many names
 its record has.
 */
module LinkConservation {
  import opened Basics
  import opened TreeMetrics

  // ----- Counting -----

  function CountIf(s: seq<nat>, keep: nat -> bool): (n: nat)
    ensures n > 0 <==> exists k :: 0 <= k < |s| && keep(s[k])
  {
    if s == [] then 0 else CountIf(s[..|s| - 1], keep) + if keep(s[|s| - 1]) then 1 else 0
  }

  lemma {:induction false} CountConcat(a: seq<nat>, b: seq<nat>, keep: nat -> bool)
    ensures CountIf(a + b, keep) == CountIf(a, keep) + CountIf(b, keep)
    decreases |b|
  {
    if b == [] {
      assert a + b == a;
    } else {
      assert (a + b)[..|a + b| - 1] == a + b[..|b| - 1];
      CountConcat(a, b[..|b| - 1], keep);
    }
  }

  lemma {:induction false} CountSame(s: seq<nat>, keep: nat -> bool, other: nat -> bool)
    requires forall k :: 0 <= k < |s| ==> keep(s[k]) == other(s[k])
    ensures CountIf(s, keep) == CountIf(s, other)
  {
    if s != [] {
      CountSame(s[..|s| - 1], keep, other);
    }
  }

  function Is(e: nat): nat -> bool { (x: nat) => x == e }

  lemma {:induction false} CountDistinct(s: seq<nat>, e: nat)
    requires Distinct(s)
    ensures CountIf(s, Is(e)) == if e in s then 1 else 0
  {
    if s != [] {
      CountDistinct(s[..|s| - 1], e);
      assert e in s <==> e in s[..|s| - 1] || e == s[|s| - 1];
    }
  }

  function PointsTo(m: MftIndex, i: nat): nat -> bool { (e: nat) => ChildOf(m, e) == Some(i) }

  function IsLink(m: MftIndex, i: nat, k: nat): nat -> bool { (e: nat) => ChildOf(m, e) == Some(i) && LinkOf(m, e) == k }

  // ----- The entries that a traversal follows -----

  ghost function Visited(m: MftIndex, rank: nat -> nat, owner: nat -> nat, d: nat): seq<nat>
    requires Ranked(m, rank, owner)
    decreases rank(d), 2, 0
  {
    VisitedChain(m, rank, owner, d, ChildChain(m, d))
  }

  ghost function VisitedChain(m: MftIndex, rank: nat -> nat, owner: nat -> nat, d: nat, entries: seq<nat>): seq<nat>
    requires Ranked(m, rank, owner) && Within(m, d, entries)
    decreases rank(d), 1, |entries|
  {
    if entries == [] then []
    else
      var last := entries[|entries| - 1];
      VisitedChain(m, rank, owner, d, entries[..|entries| - 1]) + ([last] + VisitedUnder(m, rank, owner, d, last))
  }

  ghost function VisitedUnder(m: MftIndex, rank: nat -> nat, owner: nat -> nat, d: nat, e: nat): seq<nat>
    requires Ranked(m, rank, owner) && e in ChildChain(m, d)
    decreases rank(d), 0, 0
  {
    assert EntryOk(m, rank, owner, d, e);
    match ChildOf(m, e) case None => [] case Some(c) => Visited(m, rank, owner, c)
  }

  /** The share that a child propagates through one entry. */
  function EntryShare(m: MftIndex, e: nat): nat {
    if e >= |m.children| then 0
    else match ChildOf(m, e)
      case None => 0
      case Some(c) => OwnShare(m, c, NameInfo(m.children[e].nameIndex, TotalNames(m, c)), TotalNames(m, c))
  }

  function SumShares(m: MftIndex, s: seq<nat>): nat {
    if s == [] then 0 else SumShares(m, s[..|s| - 1]) + EntryShare(m, s[|s| - 1])
  }

  lemma {:induction false} SumSharesConcat(m: MftIndex, a: seq<nat>, b: seq<nat>)
    ensures SumShares(m, a + b) == SumShares(m, a) + SumShares(m, b)
    decreases |b|
  {
    if b == [] {
      assert a + b == a;
    } else {
      assert (a + b)[..|a + b| - 1] == a + b[..|b| - 1];
      SumSharesConcat(m, a, b[..|b| - 1]);
    }
  }

  /** Propagated lengths are the shares of all entries followed. */
  lemma {:induction false} SubtreeIsShares(m: MftIndex, rank: nat -> nat, owner: nat -> nat, i: nat, nameInfo: nat, n: nat)
    requires Ranked(m, rank, owner)
    ensures SubtreeSum(m, rank, owner, LengthShare(m), i, nameInfo, n) ==
            SumShares(m, Visited(m, rank, owner, i)) + OwnShare(m, i, nameInfo, n)
    decreases rank(i), 2, 0
  {
    ChainIsShares(m, rank, owner, i, ChildChain(m, i));
  }

  lemma {:induction false} ChainIsShares(m: MftIndex, rank: nat -> nat, owner: nat -> nat, d: nat, entries: seq<nat>)
    requires Ranked(m, rank, owner) && Within(m, d, entries)
    ensures ChainSum(m, rank, owner, LengthShare(m), d, entries) == SumShares(m, VisitedChain(m, rank, owner, d, entries))
    decreases rank(d), 1, |entries|
  {
    if entries != [] {
      var init, last := entries[..|entries| - 1], entries[|entries| - 1];
      var under := VisitedUnder(m, rank, owner, d, last);
      ChainIsShares(m, rank, owner, d, init);
      EntryIsShares(m, rank, owner, d, last);
      SumSharesConcat(m, VisitedChain(m, rank, owner, d, init), [last] + under);
      SumSharesConcat(m, [last], under);
      assert [last][..0] == [];
    }
  }

  lemma {:induction false} EntryIsShares(m: MftIndex, rank: nat -> nat, owner: nat -> nat, d: nat, e: nat)
    requires Ranked(m, rank, owner) && e in ChildChain(m, d)
    ensures EntrySum(m, rank, owner, LengthShare(m), d, e) ==
            EntryShare(m, e) + SumShares(m, VisitedUnder(m, rank, owner, d, e))
    decreases rank(d), 0, 0
  {
    assert EntryOk(m, rank, owner, d, e);
    match ChildOf(m, e) {
      case None =>
      case Some(c) =>
        SubtreeIsShares(m, rank, owner, c, NameInfo(m.children[e].nameIndex, TotalNames(m, c)), TotalNames(m, c));
    }
  }

  // ----- How often an entry is followed -----

  lemma ChainCount(m: MftIndex, rank: nat -> nat, owner: nat -> nat, d: nat, e: nat)
    requires Ranked(m, rank, owner) && e in ChildChain(m, owner(e))
    ensures CountIf(ChildChain(m, d), Is(e)) == if owner(e) == d then 1 else 0
  {
    if ChildChain(m, d) != [] {
      LinksDistinct(ChildNexts(m.children), m.records[d].firstChild, |m.children|);
    }
    CountDistinct(ChildChain(m, d), e);
    assert EntryOk(m, rank, owner, d, e);
  }

  /** An entry is followed as often as its directory is entered. */
  lemma {:induction false} FollowedAsEntered(m: MftIndex, rank: nat -> nat, owner: nat -> nat, d: nat, e: nat)
    requires Ranked(m, rank, owner) && e in ChildChain(m, owner(e))
    ensures CountIf(Visited(m, rank, owner, d), Is(e)) ==
            (if owner(e) == d then 1 else 0) + CountIf(Visited(m, rank, owner, d), PointsTo(m, owner(e)))
    decreases rank(d), 2, 0
  {
    ChainCount(m, rank, owner, d, e);
    ChainFollowed(m, rank, owner, d, ChildChain(m, d), e);
  }

  lemma {:induction false} ChainFollowed(m: MftIndex, rank: nat -> nat, owner: nat -> nat, d: nat, entries: seq<nat>, e: nat)
    requires Ranked(m, rank, owner) && Within(m, d, entries) && e in ChildChain(m, owner(e))
    ensures var v := VisitedChain(m, rank, owner, d, entries);
            CountIf(v, Is(e)) == CountIf(entries, Is(e)) + CountIf(v, PointsTo(m, owner(e)))
    decreases rank(d), 1, |entries|
  {
    if entries != [] {
      var init, last := entries[..|entries| - 1], entries[|entries| - 1];
      var before := VisitedChain(m, rank, owner, d, init);
      var under := VisitedUnder(m, rank, owner, d, last);
      ChainFollowed(m, rank, owner, d, init, e);
      UnderFollowed(m, rank, owner, d, last, e);
      CountTwoParts(before, last, under, Is(e));
      CountTwoParts(before, last, under, PointsTo(m, owner(e)));
    }
  }

  lemma CountTwoParts(before: seq<nat>, last: nat, under: seq<nat>, keep: nat -> bool)
    ensures CountIf(before + ([last] + under), keep) ==
            CountIf(before, keep) + (if keep(last) then 1 else 0) + CountIf(under, keep)
  {
    CountConcat(before, [last] + under, keep);
    CountConcat([last], under, keep);
    assert [last][..0] == [];
  }

  lemma {:induction false} UnderFollowed(m: MftIndex, rank: nat -> nat, owner: nat -> nat, d: nat, l: nat, e: nat)
    requires Ranked(m, rank, owner) && l in ChildChain(m, d) && e in ChildChain(m, owner(e))
    ensures var u := VisitedUnder(m, rank, owner, d, l);
            CountIf(u, Is(e)) == (if ChildOf(m, l) == Some(owner(e)) then 1 else 0) + CountIf(u, PointsTo(m, owner(e)))
    decreases rank(d), 0, 0
  {
    assert EntryOk(m, rank, owner, d, l);
    if ChildOf(m, l).Some? {
      FollowedAsEntered(m, rank, owner, ChildOf(m, l).value, e);
    }
  }

  /** Everything followed from `d` belongs to a directory no higher than `d`. */
  lemma {:induction false} FollowedIsBelow(m: MftIndex, rank: nat -> nat, owner: nat -> nat, d: nat, e: nat)
    requires Ranked(m, rank, owner) && e in Visited(m, rank, owner, d)
    ensures e in ChildChain(m, owner(e)) && rank(owner(e)) <= rank(d)
    decreases rank(d), 2, 0
  {
    ChainIsBelow(m, rank, owner, d, ChildChain(m, d), e);
  }

  lemma {:induction false} ChainIsBelow(m: MftIndex, rank: nat -> nat, owner: nat -> nat, d: nat, entries: seq<nat>, e: nat)
    requires Ranked(m, rank, owner) && Within(m, d, entries) && e in VisitedChain(m, rank, owner, d, entries)
    ensures e in ChildChain(m, owner(e)) && rank(owner(e)) <= rank(d)
    decreases rank(d), 1, |entries|
  {
    var init, last := entries[..|entries| - 1], entries[|entries| - 1];
    assert EntryOk(m, rank, owner, d, last);
    if e in VisitedChain(m, rank, owner, d, init) {
      ChainIsBelow(m, rank, owner, d, init, e);
    } else if e != last {
      FollowedIsBelow(m, rank, owner, ChildOf(m, last).value, e);
    }
  }

  // ----- Well-linked indexes -----

  ghost predicate SameLink(m: MftIndex, owner: nat -> nat, a: nat, b: nat) {
    && a in ChildChain(m, owner(a)) && b in ChildChain(m, owner(b))
    && ChildOf(m, a).Some? && ChildOf(m, a) == ChildOf(m, b) && LinkOf(m, a) == LinkOf(m, b)
  }

  /** Two entries for the same link of the same record are one entry. */
  ghost predicate UniqueLink(m: MftIndex, owner: nat -> nat, a: nat, b: nat) {
    SameLink(m, owner, a, b) ==> a == b
  }

  ghost predicate LinkInRange(m: MftIndex, owner: nat -> nat, e: nat) {
    e in ChildChain(m, owner(e)) && ChildOf(m, e).Some? ==> LinkOf(m, e) < TotalNames(m, ChildOf(m, e).value)
  }

  ghost predicate DirectoryHasOneName(m: MftIndex, d: nat) {
    d < |m.records| && m.records[d].isDirectory ==> m.records[d].nameCount <= 1
  }

  ghost predicate WellLinked(m: MftIndex, rank: nat -> nat, owner: nat -> nat) {
    && Ranked(m, rank, owner)
    && (forall a: nat, b: nat :: UniqueLink(m, owner, a, b))
    && (forall e: nat :: LinkInRange(m, owner, e))
    && (forall d: nat :: DirectoryHasOneName(m, d))
  }

  lemma NothingPointsUp(m: MftIndex, rank: nat -> nat, owner: nat -> nat, root: nat)
    requires Ranked(m, rank, owner)
    ensures CountIf(Visited(m, rank, owner, root), PointsTo(m, root)) == 0
  {
    var v := Visited(m, rank, owner, root);
    forall k | 0 <= k < |v| ensures !PointsTo(m, root)(v[k]) {
      FollowedIsBelow(m, rank, owner, root, v[k]);
      assert EntryOk(m, rank, owner, owner(v[k]), v[k]);
    }
  }

  /** Among the entries followed, one alone leads to a directory. */
  lemma DirectoryEnteredThrough(m: MftIndex, rank: nat -> nat, owner: nat -> nat, root: nat, d: nat, e: nat)
    requires WellLinked(m, rank, owner) && ChildChain(m, d) != []
    requires e in Visited(m, rank, owner, root) && ChildOf(m, e) == Some(d)
    ensures CountIf(Visited(m, rank, owner, root), PointsTo(m, d)) == CountIf(Visited(m, rank, owner, root), Is(e))
  {
    var v := Visited(m, rank, owner, root);
    FollowedIsBelow(m, rank, owner, root, e);
    assert DirectoryHasOneName(m, d);
    forall k | 0 <= k < |v| ensures PointsTo(m, d)(v[k]) == Is(e)(v[k]) {
      FollowedIsBelow(m, rank, owner, root, v[k]);
      assert UniqueLink(m, owner, v[k], e);
    }
    CountSame(v, PointsTo(m, d), Is(e));
  }

  /** In a tree of directories, no entry is followed twice. */
  lemma {:induction false} FollowedOnce(m: MftIndex, rank: nat -> nat, owner: nat -> nat, root: nat, e: nat)
    requires WellLinked(m, rank, owner) && e in ChildChain(m, owner(e))
    ensures CountIf(Visited(m, rank, owner, root), Is(e)) <= 1
    decreases if rank(owner(e)) <= rank(root) then rank(root) - rank(owner(e)) else 0
  {
    var v := Visited(m, rank, owner, root);
    FollowedAsEntered(m, rank, owner, root, e);
    if owner(e) == root {
      NothingPointsUp(m, rank, owner, root);
    } else if CountIf(v, PointsTo(m, owner(e))) > 0 {
      var k :| 0 <= k < |v| && PointsTo(m, owner(e))(v[k]);
      FollowedIsBelow(m, rank, owner, root, v[k]);
      assert EntryOk(m, rank, owner, owner(v[k]), v[k]);
      DirectoryEnteredThrough(m, rank, owner, root, owner(e), v[k]);
      FollowedOnce(m, rank, owner, root, v[k]);
    }
  }

  // ----- Reached records -----

  ghost predicate ReachedIn(m: MftIndex, root: nat, r: nat, steps: nat)
    decreases steps
  {
    r == root ||
    (steps > 0 && exists d: nat, e: nat ::
       e in ChildChain(m, d) && ChildOf(m, e) == Some(r) && ReachedIn(m, root, d, steps - 1))
  }

  /** A record below the root, under at least one of its names. */
  ghost predicate Reached(m: MftIndex, root: nat, r: nat) { exists steps: nat :: ReachedIn(m, root, r, steps) }

  /** Every name of every reached record lies in a directory that is reached too. */
  ghost predicate AllNamesReached(m: MftIndex, root: nat) {
    forall r: nat, k: nat :: NameReached(m, root, r, k)
  }

  ghost predicate NameReached(m: MftIndex, root: nat, r: nat, k: nat) {
    Reached(m, root, r) && r != root && k < TotalNames(m, r) ==>
      exists d: nat, e: nat ::
        e in ChildChain(m, d) && ChildOf(m, e) == Some(r) && LinkOf(m, e) == k && Reached(m, root, d)
  }

  /** All entries of a directory that the traversal enters are followed. */
  lemma EnteredIsFollowed(m: MftIndex, rank: nat -> nat, owner: nat -> nat, root: nat, d: nat, e: nat)
    requires Ranked(m, rank, owner) && e in ChildChain(m, d)
    requires d == root || CountIf(Visited(m, rank, owner, root), PointsTo(m, d)) > 0
    ensures e in Visited(m, rank, owner, root)
  {
    assert EntryOk(m, rank, owner, d, e);
    FollowedAsEntered(m, rank, owner, root, e);
  }

  lemma {:induction false} ReachedIsEntered(m: MftIndex, rank: nat -> nat, owner: nat -> nat, root: nat, r: nat, steps: nat)
    requires Ranked(m, rank, owner) && ReachedIn(m, root, r, steps)
    ensures r == root || CountIf(Visited(m, rank, owner, root), PointsTo(m, r)) > 0
    decreases steps
  {
    if r != root {
      var d: nat, e: nat :| e in ChildChain(m, d) && ChildOf(m, e) == Some(r) && ReachedIn(m, root, d, steps - 1);
      ReachedIsEntered(m, rank, owner, root, d, steps - 1);
      EnteredIsFollowed(m, rank, owner, root, d, e);
      var v := Visited(m, rank, owner, root);
      var k :| 0 <= k < |v| && v[k] == e;
      assert PointsTo(m, r)(v[k]);
    }
  }

  /** What is followed leads to reached records only. */
  lemma {:induction false} FollowedIsReached(m: MftIndex, rank: nat -> nat, owner: nat -> nat, root: nat, d: nat, e: nat, steps: nat)
    requires Ranked(m, rank, owner) && ReachedIn(m, root, d, steps) && e in Visited(m, rank, owner, d)
    ensures ChildOf(m, e).Some? ==> Reached(m, root, ChildOf(m, e).value)
    decreases rank(d), 2, 0
  {
    ChainIsReached(m, rank, owner, root, d, ChildChain(m, d), e, steps);
  }

  lemma {:induction false} ChainIsReached(m: MftIndex, rank: nat -> nat, owner: nat -> nat, root: nat, d: nat,
                                          entries: seq<nat>, e: nat, steps: nat)
    requires Ranked(m, rank, owner) && Within(m, d, entries) && ReachedIn(m, root, d, steps)
    requires e in VisitedChain(m, rank, owner, d, entries)
    ensures ChildOf(m, e).Some? ==> Reached(m, root, ChildOf(m, e).value)
    decreases rank(d), 1, |entries|
  {
    var init, last := entries[..|entries| - 1], entries[|entries| - 1];
    assert EntryOk(m, rank, owner, d, last);
    if ChildOf(m, last).Some? { assert ReachedIn(m, root, ChildOf(m, last).value, steps + 1); }
    if e in VisitedChain(m, rank, owner, d, init) {
      ChainIsReached(m, rank, owner, root, d, init, e, steps);
    } else if e != last {
      FollowedIsReached(m, rank, owner, root, ChildOf(m, last).value, e, steps + 1);
    }
  }

  lemma ReachedIffEntered(m: MftIndex, rank: nat -> nat, owner: nat -> nat, root: nat, r: nat)
    requires Ranked(m, rank, owner)
    ensures Reached(m, root, r) <==> r == root || CountIf(Visited(m, rank, owner, root), PointsTo(m, r)) > 0
  {
    if Reached(m, root, r) {
      var steps: nat :| ReachedIn(m, root, r, steps);
      ReachedIsEntered(m, rank, owner, root, r, steps);
    }
    assert ReachedIn(m, root, root, 0);
    if r != root && CountIf(Visited(m, rank, owner, root), PointsTo(m, r)) > 0 {
      var v := Visited(m, rank, owner, root);
      var k :| 0 <= k < |v| && PointsTo(m, r)(v[k]);
      FollowedIsReached(m, rank, owner, root, root, v[k], 0);
    }
  }

  /** Each name of a reached record is followed exactly once. */
  lemma EachNameOnce(m: MftIndex, rank: nat -> nat, owner: nat -> nat, root: nat, r: nat, k: nat)
    requires WellLinked(m, rank, owner) && AllNamesReached(m, root)
    requires Reached(m, root, r) && r != root && k < TotalNames(m, r)
    ensures CountIf(Visited(m, rank, owner, root), IsLink(m, r, k)) == 1
  {
    var v := Visited(m, rank, owner, root);
    assert NameReached(m, root, r, k);
    var d: nat, e: nat :| e in ChildChain(m, d) && ChildOf(m, e) == Some(r) && LinkOf(m, e) == k && Reached(m, root, d);
    assert EntryOk(m, rank, owner, d, e);
    ReachedIffEntered(m, rank, owner, root, d);
    EnteredIsFollowed(m, rank, owner, root, d, e);
    FollowedOnce(m, rank, owner, root, e);
    forall j | 0 <= j < |v| ensures IsLink(m, r, k)(v[j]) == Is(e)(v[j]) {
      FollowedIsBelow(m, rank, owner, root, v[j]);
      assert UniqueLink(m, owner, v[j], e);
    }
    CountSame(v, IsLink(m, r, k), Is(e));
    var at :| 0 <= at < |v| && v[at] == e;
    assert Is(e)(v[at]);
  }

  // ----- Regrouping the shares by record and link -----

  /** The shares of the entries that lead to record `i` under link `k`. */
  function SharesOfLink(m: MftIndex, s: seq<nat>, i: nat, k: nat): nat {
    if s == [] then 0
    else SharesOfLink(m, s[..|s| - 1], i, k) +
         if IsLink(m, i, k)(s[|s| - 1]) then EntryShare(m, s[|s| - 1]) else 0
  }

  function SumUpTo(f: nat -> nat, n: nat): nat { if n == 0 then 0 else SumUpTo(f, n - 1) + f(n - 1) }

  lemma {:induction false} SumsAgree(f: nat -> nat, g: nat -> nat, n: nat)
    requires forall k: nat :: k < n ==> f(k) == g(k)
    ensures SumUpTo(f, n) == SumUpTo(g, n)
  {
    if n > 0 {
      SumsAgree(f, g, n - 1);
    }
  }

  lemma {:induction false} SumsDifferAt(f: nat -> nat, g: nat -> nat, n: nat, at: nat, extra: nat)
    requires forall k: nat :: k < n ==> g(k) == f(k) + if k == at then extra else 0
    ensures SumUpTo(g, n) == SumUpTo(f, n) + if at < n then extra else 0
  {
    if n > 0 {
      SumsDifferAt(f, g, n - 1, at, extra);
    }
  }

  function LinkShare(m: MftIndex, s: seq<nat>, i: nat): nat -> nat { (k: nat) => SharesOfLink(m, s, i, k) }

  function SharesOfLinks(m: MftIndex, s: seq<nat>, i: nat, n: nat): nat { SumUpTo(LinkShare(m, s, i), n) }

  function RecordShare(m: MftIndex, s: seq<nat>): nat -> nat {
    (i: nat) => SharesOfLinks(m, s, i, TotalNames(m, i))
  }

  function SharesByRecord(m: MftIndex, s: seq<nat>, n: nat): nat { SumUpTo(RecordShare(m, s), n) }

  lemma {:induction false} LinksSnoc(m: MftIndex, s: seq<nat>, e: nat, i: nat, n: nat)
    ensures SharesOfLinks(m, s + [e], i, n) ==
            SharesOfLinks(m, s, i, n) +
            if ChildOf(m, e) == Some(i) && LinkOf(m, e) < n then EntryShare(m, e) else 0
  {
    assert (s + [e])[..|s|] == s;
    if n > 0 {
      LinksSnoc(m, s, e, i, n - 1);
    }
  }

  lemma RecordsSnoc(m: MftIndex, s: seq<nat>, e: nat, n: nat)
    requires ChildOf(m, e).Some? ==> LinkOf(m, e) < TotalNames(m, ChildOf(m, e).value)
    ensures SharesByRecord(m, s + [e], n) ==
            SharesByRecord(m, s, n) +
            if ChildOf(m, e).Some? && ChildOf(m, e).value < n then EntryShare(m, e) else 0
  {
    forall i: nat ensures RecordShare(m, s + [e])(i) ==
                          RecordShare(m, s)(i) + if ChildOf(m, e) == Some(i) then EntryShare(m, e) else 0
    {
      LinksSnoc(m, s, e, i, TotalNames(m, i));
    }
    if ChildOf(m, e).Some? {
      SumsDifferAt(RecordShare(m, s), RecordShare(m, s + [e]), n, ChildOf(m, e).value, EntryShare(m, e));
    } else {
      SumsAgree(RecordShare(m, s), RecordShare(m, s + [e]), n);
    }
  }

  lemma {:induction false} NoShares(m: MftIndex, n: nat)
    ensures SharesByRecord(m, [], n) == 0
  {
    if n > 0 {
      NoShares(m, n - 1);
      NoLinkShares(m, n - 1, TotalNames(m, n - 1));
    }
  }

  lemma {:induction false} NoLinkShares(m: MftIndex, i: nat, n: nat)
    ensures SharesOfLinks(m, [], i, n) == 0
  {
    if n > 0 {
      NoLinkShares(m, i, n - 1);
    }
  }

  ghost predicate InRange(m: MftIndex, e: nat) {
    ChildOf(m, e).Some? ==>
      ChildOf(m, e).value < |m.records| && LinkOf(m, e) < TotalNames(m, ChildOf(m, e).value)
  }

  /** Adding up the shares in order of traversal or record by record gives the same sum. */
  lemma {:induction false} Regroup(m: MftIndex, s: seq<nat>)
    requires forall k :: 0 <= k < |s| ==> InRange(m, s[k])
    ensures SumShares(m, s) == SharesByRecord(m, s, |m.records|)
  {
    if s == [] {
      NoShares(m, |m.records|);
    } else {
      var init, last := s[..|s| - 1], s[|s| - 1];
      Regroup(m, init);
      assert InRange(m, last) && s == init + [last];
      RecordsSnoc(m, init, last, |m.records|);
    }
  }

  // ----- One record -----

  function OwnLinkShare(m: MftIndex, i: nat, n: nat): nat -> nat { (k: nat) => OwnShare(m, i, NameInfo(k, n), n) }

  function LinkShares(m: MftIndex, i: nat, n: nat, k: nat): nat { SumUpTo(OwnLinkShare(m, i, n), k) }

  function AllShares(lengths: seq<nat>, n: nat, k: nat): nat {
    if k == 0 then 0 else AllShares(lengths, n, k - 1) + ShareOf(lengths, NameInfo(k - 1, n), n)
  }

  lemma {:induction false} AllSharesSnoc(lengths: seq<nat>, n: nat, k: nat)
    requires lengths != []
    ensures AllShares(lengths, n, k) ==
            AllShares(lengths[..|lengths| - 1], n, k) + SharesUpTo(lengths[|lengths| - 1], n, k)
  {
    if k > 0 {
      AllSharesSnoc(lengths, n, k - 1);
    }
  }

  lemma {:induction false} NothingShared(n: nat, k: nat)
    ensures AllShares([], n, k) == 0
  {
    if k > 0 {
      NothingShared(n, k - 1);
    }
  }

  /** The links of a record together take all of its streams. */
  lemma {:induction false} AllSharesAddUp(lengths: seq<nat>, n: nat)
    requires n > 0 && forall k :: 0 <= k < |lengths| ==> Divides(lengths[k], n)
    ensures AllShares(lengths, n, n) == Sum(lengths)
  {
    if lengths == [] {
      NothingShared(n, n);
    } else {
      AllSharesSnoc(lengths, n, n);
      AllSharesAddUp(lengths[..|lengths| - 1], n);
      SharesAddUp(lengths[|lengths| - 1], n);
    }
  }

  lemma {:induction false} LinkSharesAre(m: MftIndex, i: nat, n: nat, k: nat)
    requires i < |m.records|
    ensures LinkShares(m, i, n, k) == AllShares(OwnLengths(m, m.records[i]), n, k)
  {
    if k > 0 {
      LinkSharesAre(m, i, n, k - 1);
    }
  }

  /** An entry followed once contributes its share once. */
  lemma {:induction false} OneLinkShare(m: MftIndex, s: seq<nat>, i: nat, k: nat)
    requires CountIf(s, IsLink(m, i, k)) <= 1
    requires forall j :: 0 <= j < |s| ==> s[j] < |m.children|
    ensures SharesOfLink(m, s, i, k) ==
            if CountIf(s, IsLink(m, i, k)) == 1 then OwnShare(m, i, NameInfo(k, TotalNames(m, i)), TotalNames(m, i)) else 0
  {
    if s != [] {
      OneLinkShare(m, s[..|s| - 1], i, k);
    }
  }

  lemma LinksOfRecord(m: MftIndex, s: seq<nat>, i: nat, n: nat)
    requires forall j :: 0 <= j < |s| ==> s[j] < |m.children|
    requires forall k :: 0 <= k < n ==> CountIf(s, IsLink(m, i, k)) == 1
    ensures SharesOfLinks(m, s, i, n) == LinkShares(m, i, TotalNames(m, i), n)
  {
    forall k: nat | k < n ensures LinkShare(m, s, i)(k) == OwnLinkShare(m, i, TotalNames(m, i))(k) {
      OneLinkShare(m, s, i, k);
    }
    SumsAgree(LinkShare(m, s, i), OwnLinkShare(m, i, TotalNames(m, i)), n);
  }

  lemma {:induction false} NoLinksOfRecord(m: MftIndex, s: seq<nat>, i: nat, n: nat)
    requires CountIf(s, PointsTo(m, i)) == 0
    ensures SharesOfLinks(m, s, i, n) == 0
  {
    if n > 0 {
      NoLinksOfRecord(m, s, i, n - 1);
      NoLinkOfRecord(m, s, i, n - 1);
    }
  }

  lemma {:induction false} NoLinkOfRecord(m: MftIndex, s: seq<nat>, i: nat, k: nat)
    requires CountIf(s, PointsTo(m, i)) == 0
    ensures SharesOfLink(m, s, i, k) == 0
  {
    if s != [] {
      NoLinkOfRecord(m, s[..|s| - 1], i, k);
    }
  }

  // ----- Conservation -----

  /** All streams of all records of the index, each once, where the record is reached. */
  ghost function ReachedTotal(m: MftIndex, root: nat, n: nat): nat { SumUpTo(IfReached(m, root), n) }

  ghost function IfReached(m: MftIndex, root: nat): nat -> nat {
    (i: nat) => if Reached(m, root, i) then OwnTotal(m, i) else 0
  }

  ghost predicate StreamsDivide(m: MftIndex, i: nat) {
    i < |m.records| ==>
      forall k :: 0 <= k < |OwnLengths(m, m.records[i])| ==> Divides(OwnLengths(m, m.records[i])[k], TotalNames(m, i))
  }

  /** The shares of one record: all of its streams if it is reached, and nothing otherwise. */
  lemma RecordIsConserved(m: MftIndex, rank: nat -> nat, owner: nat -> nat, root: nat, i: nat)
    requires WellLinked(m, rank, owner) && AllNamesReached(m, root) && StreamsDivide(m, i) && i < |m.records|
    ensures SharesOfLinks(m, Visited(m, rank, owner, root), i, TotalNames(m, i)) ==
            if Reached(m, root, i) && i != root then OwnTotal(m, i) else 0
  {
    var v := Visited(m, rank, owner, root);
    ReachedIffEntered(m, rank, owner, root, i);
    if Reached(m, root, i) && i != root {
      forall k | 0 <= k < TotalNames(m, i) ensures CountIf(v, IsLink(m, i, k)) == 1 {
        EachNameOnce(m, rank, owner, root, i, k);
      }
      forall j | 0 <= j < |v| ensures v[j] < |m.children| {
        FollowedIsBelow(m, rank, owner, root, v[j]);
        assert EntryOk(m, rank, owner, owner(v[j]), v[j]);
      }
      LinksOfRecord(m, v, i, TotalNames(m, i));
      LinkSharesAre(m, i, TotalNames(m, i), TotalNames(m, i));
      AllSharesAddUp(OwnLengths(m, m.records[i]), TotalNames(m, i));
    } else {
      if i == root { NothingPointsUp(m, rank, owner, root); }
      NoLinksOfRecord(m, v, i, TotalNames(m, i));
    }
  }

  lemma RecordsAreConserved(m: MftIndex, rank: nat -> nat, owner: nat -> nat, root: nat)
    requires WellLinked(m, rank, owner) && AllNamesReached(m, root) && root < |m.records|
    requires forall i: nat :: StreamsDivide(m, i)
    ensures SharesByRecord(m, Visited(m, rank, owner, root), |m.records|) + OwnTotal(m, root) ==
            ReachedTotal(m, root, |m.records|)
  {
    var v := Visited(m, rank, owner, root);
    assert ReachedIn(m, root, root, 0);
    forall i: nat | i < |m.records|
      ensures IfReached(m, root)(i) == RecordShare(m, v)(i) + if i == root then OwnTotal(m, root) else 0
    {
      assert StreamsDivide(m, i);
      RecordIsConserved(m, rank, owner, root, i);
    }
    SumsDifferAt(RecordShare(m, v), IfReached(m, root), |m.records|, root, OwnTotal(m, root));
  }

  lemma {:induction false} SingleNameTakesAll(lengths: seq<nat>)
    ensures ShareOf(lengths, 0, 1) == Sum(lengths)
  {
    if lengths != [] {
      SingleNameTakesAll(lengths[..|lengths| - 1]);
    }
  }

  /**
   Hard-link conservation: if directories form a tree and all names of each
   reached record are reached, the root propagates the streams of every reached
   record, each counted once.
   */
  lemma HardLinkConservation(m: MftIndex, rank: nat -> nat, owner: nat -> nat, root: nat)
    requires WellLinked(m, rank, owner) && AllNamesReached(m, root) && root < |m.records|
    requires forall i: nat :: StreamsDivide(m, i)
    ensures SubtreeSum(m, rank, owner, LengthShare(m), root, 0, 1) == ReachedTotal(m, root, |m.records|)
  {
    var v := Visited(m, rank, owner, root);
    SubtreeIsShares(m, rank, owner, root, 0, 1);
    SingleNameTakesAll(OwnLengths(m, m.records[root]));
    forall k | 0 <= k < |v| ensures InRange(m, v[k]) {
      FollowedIsBelow(m, rank, owner, root, v[k]);
      assert EntryOk(m, rank, owner, owner(v[k]), v[k]) && LinkInRange(m, owner, v[k]);
    }
    Regroup(m, v);
    RecordsAreConserved(m, rank, owner, root);
  }

  /** The children of the root alone propagate every other reached record's streams. */
  lemma RootChildrenConserve(m: MftIndex, rank: nat -> nat, owner: nat -> nat, root: nat)
    requires WellLinked(m, rank, owner) && AllNamesReached(m, root) && root < |m.records|
    requires forall i: nat :: StreamsDivide(m, i)
    ensures ChildrenSum(m, rank, owner, LengthShare(m), root) + OwnTotal(m, root) == ReachedTotal(m, root, |m.records|)
  {
    HardLinkConservation(m, rank, owner, root);
    SingleNameTakesAll(OwnLengths(m, m.records[root]));
  }
}
