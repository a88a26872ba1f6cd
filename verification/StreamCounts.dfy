/**
 How many descendants a directory prints: every stream of a record counts once for
 each of the record's names, unlike lengths, which are shared out.
 */
module StreamCounts {
  import opened Basics
  import opened TreeMetrics
  import opened LinkConservation
  import opened TreeTraversals

  /** Streams of a record, at least one. */
  function Streams(m: MftIndex, i: nat): nat {
    if i >= |m.records| then 0 else if m.records[i].totalStreamCount == 0 then 1 else m.records[i].totalStreamCount
  }

  function EntryStreams(m: MftIndex, e: nat): nat {
    match ChildOf(m, e) case None => 0 case Some(c) => Streams(m, c)
  }

  function SumStreams(m: MftIndex, s: seq<nat>): nat {
    if s == [] then 0 else SumStreams(m, s[..|s| - 1]) + EntryStreams(m, s[|s| - 1])
  }

  lemma {:induction false} SumStreamsConcat(m: MftIndex, a: seq<nat>, b: seq<nat>)
    ensures SumStreams(m, a + b) == SumStreams(m, a) + SumStreams(m, b)
    decreases |b|
  {
    if b == [] {
      assert a + b == a;
    } else {
      assert (a + b)[..|a + b| - 1] == a + b[..|b| - 1];
      SumStreamsConcat(m, a, b[..|b| - 1]);
    }
  }

  // ----- Counting along the traversal -----

  lemma {:induction false} SubtreeIsStreams(m: MftIndex, rank: nat -> nat, owner: nat -> nat, i: nat, nameInfo: nat, n: nat)
    requires Ranked(m, rank, owner)
    ensures SubtreeSum(m, rank, owner, StreamShare(m), i, nameInfo, n) ==
            SumStreams(m, Visited(m, rank, owner, i)) + Streams(m, i)
    decreases rank(i), 2, 0
  {
    ChainIsStreams(m, rank, owner, i, ChildChain(m, i));
  }

  lemma {:induction false} ChainIsStreams(m: MftIndex, rank: nat -> nat, owner: nat -> nat, d: nat, entries: seq<nat>)
    requires Ranked(m, rank, owner) && Within(m, d, entries)
    ensures ChainSum(m, rank, owner, StreamShare(m), d, entries) == SumStreams(m, VisitedChain(m, rank, owner, d, entries))
    decreases rank(d), 1, |entries|
  {
    if entries != [] {
      var init, last := entries[..|entries| - 1], entries[|entries| - 1];
      var under := VisitedUnder(m, rank, owner, d, last);
      ChainIsStreams(m, rank, owner, d, init);
      EntryIsStreams(m, rank, owner, d, last);
      SumStreamsConcat(m, VisitedChain(m, rank, owner, d, init), [last] + under);
      SumStreamsConcat(m, [last], under);
      assert [last][..0] == [];
    }
  }

  lemma {:induction false} EntryIsStreams(m: MftIndex, rank: nat -> nat, owner: nat -> nat, d: nat, e: nat)
    requires Ranked(m, rank, owner) && e in ChildChain(m, d)
    ensures EntrySum(m, rank, owner, StreamShare(m), d, e) ==
            EntryStreams(m, e) + SumStreams(m, VisitedUnder(m, rank, owner, d, e))
    decreases rank(d), 0, 0
  {
    assert EntryOk(m, rank, owner, d, e);
    match ChildOf(m, e) {
      case None =>
      case Some(c) =>
        SubtreeIsStreams(m, rank, owner, c, NameInfo(m.children[e].nameIndex, TotalNames(m, c)), TotalNames(m, c));
    }
  }

  // ----- Regrouping by record -----

  function StreamsByRecord(m: MftIndex, s: seq<nat>): nat -> nat {
    (i: nat) => CountIf(s, PointsTo(m, i)) * Streams(m, i)
  }

  lemma {:induction false} NothingFollowed(m: MftIndex, n: nat)
    ensures SumUpTo(StreamsByRecord(m, []), n) == 0
  {
    if n > 0 {
      NothingFollowed(m, n - 1);
    }
  }

  lemma OneMore(m: MftIndex, s: seq<nat>, e: nat, i: nat)
    ensures StreamsByRecord(m, s + [e])(i) ==
            StreamsByRecord(m, s)(i) + if ChildOf(m, e) == Some(i) then EntryStreams(m, e) else 0
  {
    assert (s + [e])[..|s|] == s;
    if ChildOf(m, e) == Some(i) {
      Distribute(CountIf(s, PointsTo(m, i)), Streams(m, i));
    }
  }

  lemma Distribute(c: nat, x: nat)
    ensures (c + 1) * x == c * x + x
  {}

  /** Adding up along the traversal or record by record gives the same sum. */
  lemma {:induction false} StreamsRegroup(m: MftIndex, s: seq<nat>, n: nat)
    requires forall k :: 0 <= k < |s| && ChildOf(m, s[k]).Some? ==> ChildOf(m, s[k]).value < n
    ensures SumStreams(m, s) == SumUpTo(StreamsByRecord(m, s), n)
  {
    if s == [] {
      NothingFollowed(m, n);
    } else {
      var init, last := s[..|s| - 1], s[|s| - 1];
      assert s == init + [last];
      StreamsRegroup(m, init, n);
      forall i: nat ensures StreamsByRecord(m, s)(i) ==
                            StreamsByRecord(m, init)(i) + if ChildOf(m, last) == Some(i) then EntryStreams(m, last) else 0
      {
        OneMore(m, init, last, i);
      }
      var at := if ChildOf(m, last).Some? then ChildOf(m, last).value else n;
      SumsDifferAt(StreamsByRecord(m, init), StreamsByRecord(m, s), n, at, EntryStreams(m, last));
    }
  }

  // ----- Once for each name -----

  /** The first `n` links of a record. */
  function IsLinkBelow(m: MftIndex, i: nat, n: nat): nat -> bool {
    (e: nat) => ChildOf(m, e) == Some(i) && LinkOf(m, e) < n
  }

  lemma {:induction false} CountSplits(m: MftIndex, s: seq<nat>, i: nat, n: nat)
    ensures CountIf(s, IsLinkBelow(m, i, n + 1)) == CountIf(s, IsLinkBelow(m, i, n)) + CountIf(s, IsLink(m, i, n))
  {
    if s != [] {
      CountSplits(m, s[..|s| - 1], i, n);
    }
  }

  lemma {:induction false} LinksCount(m: MftIndex, s: seq<nat>, i: nat, n: nat)
    requires forall k :: 0 <= k < n ==> CountIf(s, IsLink(m, i, k)) == 1
    ensures CountIf(s, IsLinkBelow(m, i, n)) == n
  {
    if n > 0 {
      LinksCount(m, s, i, n - 1);
      CountSplits(m, s, i, n - 1);
    }
  }

  /** A reached record is entered once for each of its names. */
  lemma EnteredForEachName(m: MftIndex, rank: nat -> nat, owner: nat -> nat, root: nat, r: nat)
    requires WellLinked(m, rank, owner) && AllNamesReached(m, root)
    ensures CountIf(Visited(m, rank, owner, root), PointsTo(m, r)) ==
            if r != root && Reached(m, root, r) then TotalNames(m, r) else 0
  {
    var v := Visited(m, rank, owner, root);
    ReachedIffEntered(m, rank, owner, root, r);
    if r == root {
      NothingPointsUp(m, rank, owner, root);
    } else if Reached(m, root, r) {
      forall k | 0 <= k < TotalNames(m, r) ensures CountIf(v, IsLink(m, r, k)) == 1 {
        EachNameOnce(m, rank, owner, root, r, k);
      }
      LinksCount(m, v, r, TotalNames(m, r));
      forall j | 0 <= j < |v| ensures PointsTo(m, r)(v[j]) == IsLinkBelow(m, r, TotalNames(m, r))(v[j]) {
        FollowedIsBelow(m, rank, owner, root, v[j]);
        assert LinkInRange(m, owner, v[j]);
      }
      CountSame(v, PointsTo(m, r), IsLinkBelow(m, r, TotalNames(m, r)));
    }
  }

  /** Names and streams of the records below the root. */
  ghost function NamedStreams(m: MftIndex, root: nat): nat -> nat {
    (i: nat) => if i != root && Reached(m, root, i) then TotalNames(m, i) * Streams(m, i) else 0
  }

  /** The root counts, for every record below it, each stream once for each name. */
  lemma RootCountsEachName(m: MftIndex, rank: nat -> nat, owner: nat -> nat, root: nat)
    requires WellLinked(m, rank, owner) && AllNamesReached(m, root) && root < |m.records|
    ensures ChildrenSum(m, rank, owner, StreamShare(m), root) == SumUpTo(NamedStreams(m, root), |m.records|)
  {
    var v := Visited(m, rank, owner, root);
    ChainIsStreams(m, rank, owner, root, ChildChain(m, root));
    forall k | 0 <= k < |v| && ChildOf(m, v[k]).Some? ensures ChildOf(m, v[k]).value < |m.records| {
      FollowedIsBelow(m, rank, owner, root, v[k]);
      assert EntryOk(m, rank, owner, owner(v[k]), v[k]);
    }
    StreamsRegroup(m, v, |m.records|);
    forall i: nat | i < |m.records| ensures StreamsByRecord(m, v)(i) == NamedStreams(m, root)(i) {
      EnteredForEachName(m, rank, owner, root, i);
    }
    SumsAgree(StreamsByRecord(m, v), NamedStreams(m, root), |m.records|);
  }

  /** So the root prints that many descendants, and itself. */
  lemma RootPrintsDescendants(m: MftIndex, rank: nat -> nat, owner: nat -> nat, root: nat)
    requires WellLinked(m, rank, owner) && AllNamesReached(m, root) && root < |m.records| && m.records[root].isDirectory
    ensures PrintedFor(m, rank, owner, root).descendants ==
            Min(SumUpTo(NamedStreams(m, root), |m.records|) + 1, 0xFFFF_FFFF)
  {
    RootCountsEachName(m, rank, owner, root);
  }

  /** A file prints its default stream whatever its other streams are, and no descendants, under every name. */
  lemma FilePrintsDefaultStream(m: MftIndex, rank: nat -> nat, owner: nat -> nat, i: nat)
    requires Ranked(m, rank, owner) && i < |m.records| && !m.records[i].isDirectory
    ensures PrintedFor(m, rank, owner, i).treesize == m.records[i].firstLen && PrintedFor(m, rank, owner, i).descendants == 0
    ensures ChildrenSum(m, rank, owner, LengthShare(m), i) == 0
  {
    FileHasNoChildren(m, rank, owner, i);
  }
}
