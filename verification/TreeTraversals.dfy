/**
 The traversal that computes folder sizes in place (tree_metrics.rs): linked
 chains are walked, every visited record is marked and printed, and saturating
 counters carry the sums of TreeMetrics.
 */
module TreeTraversals {
  import opened Basics
  import Records
  import opened TreeMetrics
  import opened LinkConservation

  function SatAdd(a: nat, b: nat, max: nat): nat { Min(a + b, max) }

  /** Channel A: what a subtree propagates. */
  datatype Agg = Agg(length: nat, streams: nat)

  /** Channel B: what a record prints. */
  datatype Printed = Printed(descendants: nat, treesize: nat)

  /** All chains of a record end and stay in range. */
  ghost predicate ChainsEnd(m: MftIndex, i: nat) {
    i < |m.records| ==>
      var r := m.records[i];
      && Links(ChildNexts(m.children), r.firstChild, |m.children|).Some?
      && Links(StreamNexts(m.streams), r.firstStreamNext, |m.streams|).Some?
      && Links(StreamNexts(m.internalStreams), r.firstInternalStream, |m.internalStreams|).Some?
  }

  ghost predicate EntryInRange(m: MftIndex, k: nat) {
    k < |m.frsToIdx| && m.frsToIdx[k] != NO_ENTRY ==> m.frsToIdx[k] < |m.records|
  }

  ghost predicate Sound(m: MftIndex, rank: nat -> nat, owner: nat -> nat) {
    && Ranked(m, rank, owner)
    && (forall i: nat :: ChainsEnd(m, i))
    && (forall k: nat :: EntryInRange(m, k))
  }

  /** What a record should print: its children's sums and its own default stream. */
  ghost function PrintedFor(m: MftIndex, rank: nat -> nat, owner: nat -> nat, i: nat): Printed
    requires Ranked(m, rank, owner)
  {
    if i >= |m.records| then Printed(0, 0)
    else if m.records[i].isDirectory then
      Printed(
        SatAdd(Min(ChildrenSum(m, rank, owner, StreamShare(m), i), U32_MAX), 1, U32_MAX),
        SatAdd(Min(ChildrenSum(m, rank, owner, LengthShare(m), i), U64_MAX), m.records[i].firstLen, U64_MAX))
    else Printed(0, m.records[i].firstLen)
  }

  /** Every visited record that is not still being worked on prints what it should. */
  ghost predicate PrintedAll(m: MftIndex, rank: nat -> nat, owner: nat -> nat, seen: seq<bool>, printed: seq<Printed>, busy: set<nat>)
    requires Ranked(m, rank, owner) && |seen| == |printed|
  {
    forall i :: 0 <= i < |seen| && seen[i] && i !in busy ==> printed[i] == PrintedFor(m, rank, owner, i)
  }

  lemma MarkKeepsPrinted(m: MftIndex, rank: nat -> nat, owner: nat -> nat, seen: seq<bool>, printed: seq<Printed>, busy: set<nat>, i: nat)
    requires Ranked(m, rank, owner) && |seen| == |printed| && i < |seen| && PrintedAll(m, rank, owner, seen, printed, busy)
    ensures PrintedAll(m, rank, owner, seen[i := true], printed, busy + {i})
  {}

  /** What a record shows: a directory its children's sums and its own default stream, a file that stream alone. */
  function Shown(r: FileRecord, children: Agg): Printed {
    if r.isDirectory then Printed(SatAdd(children.streams, 1, U32_MAX), SatAdd(children.length, r.firstLen, U64_MAX))
    else Printed(0, r.firstLen)
  }

  lemma StoreKeepsPrinted(m: MftIndex, rank: nat -> nat, owner: nat -> nat, seen: seq<bool>, printed: seq<Printed>,
                          busy: set<nat>, i: nat, children: Agg)
    requires Ranked(m, rank, owner) && |seen| == |printed| == |m.records| && i < |seen|
    requires PrintedAll(m, rank, owner, seen, printed, busy + {i})
    requires children.length == Min(ChildrenSum(m, rank, owner, LengthShare(m), i), U64_MAX)
    requires children.streams == Min(ChildrenSum(m, rank, owner, StreamShare(m), i), U32_MAX)
    ensures PrintedAll(m, rank, owner, seen, printed[i := Shown(m.records[i], children)], busy)
  {}

  // ----- Walking chains -----

  lemma ChainStep(next: seq<nat>, head: nat, fuel: nat)
    requires Links(next, head, fuel).Some? && head != NO_ENTRY
    ensures head < |next|
    ensures var rest := Links(next, head, fuel).value;
            rest != [] && rest[0] == head && Links(next, next[head], fuel) == Some(rest[1..])
  {
    LinksMonotone(next, next[head], fuel - 1, fuel);
  }

  lemma ShareSnoc(lengths: seq<nat>, x: nat, nameInfo: nat, n: nat)
    ensures ShareOf(lengths + [x], nameInfo, n) == ShareOf(lengths, nameInfo, n) + Delta(x, nameInfo, n)
  {
    assert (lengths + [x])[..|lengths|] == lengths;
  }

  class TreeTraversal {
    const index: MftIndex
    const seen: array<bool>
    const printed: array<Printed>
    const skipOrphans: bool

    ghost predicate Shaped()
    {
      seen.Length == |index.records| && printed.Length == |index.records|
    }

    constructor (index: MftIndex, skipOrphans: bool)
      ensures this.index == index && this.skipOrphans == skipOrphans
      ensures Shaped() && fresh(seen) && fresh(printed)
      ensures forall i :: 0 <= i < seen.Length ==> !seen[i]
    {
      this.index := index;
      this.skipOrphans := skipOrphans;
      seen := new bool[|index.records|](_ => false);
      printed := new Printed[|index.records|](_ => Printed(0, 0));
    }

    // ----- One record -----

    /** The first named stream that holds compressed data, for records with the compression tag. */
    method FindWofStream(r: FileRecord) returns (wof: nat)
      requires Links(StreamNexts(index.streams), r.firstStreamNext, |index.streams|).Some?
      ensures wof == WofStream(index, r)
    {
      if r.reparseTag != WOF_TAG { return NO_ENTRY; }
      var at := r.firstStreamNext;
      ghost var chain := StreamChain(index.streams, at);
      ghost var rest := chain;
      while at != NO_ENTRY
        invariant Links(StreamNexts(index.streams), at, |index.streams|) == Some(rest)
        invariant WofEntry(index, chain) == WofEntry(index, rest)
        decreases |rest|
      {
        ChainStep(StreamNexts(index.streams), at, |index.streams|);
        if index.streams[at].name == WOF_NAME { return at; }
        WofLater(index, rest);
        at := index.streams[at].nextEntry;
        rest := rest[1..];
      }
      return NO_ENTRY;
    }

    /** Add the shares of the internal streams, walking their chain where it is kept. */
    method AddInternalStreams(r: FileRecord, before: nat, nameInfo: nat, n: nat, ghost lengths: seq<nat>) returns (sum: nat)
      requires Links(StreamNexts(index.internalStreams), r.firstInternalStream, |index.internalStreams|).Some?
      requires before == Min(ShareOf(lengths, nameInfo, n), U64_MAX)
      ensures sum == Min(ShareOf(lengths + InternalLengths(index, r), nameInfo, n), U64_MAX)
    {
      sum := before;
      if r.firstInternalStream != NO_ENTRY && index.internalStreams != [] {
        var at := r.firstInternalStream;
        ghost var chain := StreamChain(index.internalStreams, at);
        ghost var k := 0;
        assert lengths + InternalChainLengths(index, chain[..0]) == lengths;
        while at != NO_ENTRY
          invariant k <= |chain| && Links(StreamNexts(index.internalStreams), at, |index.internalStreams|) == Some(chain[k..])
          invariant sum == Min(ShareOf(lengths + InternalChainLengths(index, chain[..k]), nameInfo, n), U64_MAX)
          decreases |chain| - k
        {
          ChainStep(StreamNexts(index.internalStreams), at, |index.internalStreams|);
          var stream := index.internalStreams[at];
          InternalStep(index, lengths, chain, k, nameInfo, n);
          sum := SatAdd(sum, Delta(stream.length, nameInfo, n), U64_MAX);
          at := stream.nextEntry;
          k := k + 1;
        }
        assert chain[..k] == chain;
      } else {
        ShareSnoc(lengths, r.internalStreamsSize, nameInfo, n);
        NothingToDivide(nameInfo, n);
        if r.internalStreamsSize > 0 {
          sum := SatAdd(sum, Delta(r.internalStreamsSize, nameInfo, n), U64_MAX);
        }
      }
    }

    /** Add the shares of the named streams, the compressed one as zero. */
    method AddNamedStreams(r: FileRecord, before: nat, nameInfo: nat, n: nat, ghost lengths: seq<nat>) returns (sum: nat)
      requires Links(StreamNexts(index.streams), r.firstStreamNext, |index.streams|).Some?
      requires before == Min(ShareOf(lengths, nameInfo, n), U64_MAX)
      ensures var named := NamedLengths(index, WofStream(index, r), StreamChain(index.streams, r.firstStreamNext));
              sum == Min(ShareOf(lengths + named, nameInfo, n), U64_MAX)
    {
      sum := before;
      var wof := FindWofStream(r);
      var at := r.firstStreamNext;
      ghost var chain := StreamChain(index.streams, at);
      ghost var k := 0;
      assert lengths + NamedLengths(index, wof, chain[..0]) == lengths;
      while at != NO_ENTRY
        invariant k <= |chain| && Links(StreamNexts(index.streams), at, |index.streams|) == Some(chain[k..])
        invariant sum == Min(ShareOf(lengths + NamedLengths(index, wof, chain[..k]), nameInfo, n), U64_MAX)
        decreases |chain| - k
      {
        ChainStep(StreamNexts(index.streams), at, |index.streams|);
        var stream := index.streams[at];
        NamedStep(index, wof, lengths, chain, k, nameInfo, n);
        sum := SatAdd(sum, Delta(if at == wof then 0 else stream.length, nameInfo, n), U64_MAX);
        at := stream.nextEntry;
        k := k + 1;
      }
      assert chain[..k] == chain;
    }

    method AccumulateOwnStreams(r: FileRecord, nameInfo: nat, n: nat) returns (sum: nat)
      requires Links(StreamNexts(index.streams), r.firstStreamNext, |index.streams|).Some?
      requires Links(StreamNexts(index.internalStreams), r.firstInternalStream, |index.internalStreams|).Some?
      ensures sum == Min(ShareOf(OwnLengths(index, r), nameInfo, n), U64_MAX)
    {
      sum := SatAdd(0, Delta(r.firstLen, nameInfo, n), U64_MAX);
      ShareSnoc([], r.firstLen, nameInfo, n);
      assert [] + [r.firstLen] == [r.firstLen];
      sum := AddInternalStreams(r, sum, nameInfo, n, [r.firstLen]);
      sum := AddNamedStreams(r, sum, nameInfo, n, [r.firstLen] + InternalLengths(index, r));
    }

    // ----- The recursion -----

    /** Every visited record that is not still being worked on prints what it should. */
    ghost predicate AllPrinted(rank: nat -> nat, owner: nat -> nat, busy: set<nat>)
      requires Ranked(index, rank, owner) && Shaped()
      reads seen, printed
    {
      PrintedAll(index, rank, owner, seen[..], printed[..], busy)
    }

    /** Visit a record under one of its names, and everything below it. */
    method Preprocess(i: nat, nameInfo: nat, totalNames: nat, ghost rank: nat -> nat, ghost owner: nat -> nat, ghost busy: set<nat>)
      returns (agg: Agg)
      requires Sound(index, rank, owner) && Shaped() && i < |index.records|
      requires AllPrinted(rank, owner, busy) && forall b :: b in busy ==> rank(b) > rank(i)
      modifies seen, printed
      ensures AllPrinted(rank, owner, busy)
      ensures Marked(index, old(seen[..])[i := true], seen[..], Visited(index, rank, owner, i))
      ensures agg.length == Min(SubtreeSum(index, rank, owner, LengthShare(index), i, nameInfo, totalNames), U64_MAX)
      ensures agg.streams == Min(SubtreeSum(index, rank, owner, StreamShare(index), i, nameInfo, totalNames), U32_MAX)
      decreases rank(i), 2
    {
      MarkKeepsPrinted(index, rank, owner, seen[..], printed[..], busy, i);
      seen[i] := true;
      assert seen[..] == old(seen[..])[i := true];
      var children := VisitBelow(i, rank, owner, busy + {i});
      agg := AddOwn(i, nameInfo, totalNames, children, rank, owner);
      StoreKeepsPrinted(index, rank, owner, seen[..], printed[..], busy, i, children);
      StorePrinted(i, children);
    }

    /** What a record propagates: what its children propagate and its own streams. */
    method AddOwn(i: nat, nameInfo: nat, totalNames: nat, children: Agg, ghost rank: nat -> nat, ghost owner: nat -> nat)
      returns (agg: Agg)
      requires Sound(index, rank, owner) && i < |index.records|
      requires children.length == Min(ChildrenSum(index, rank, owner, LengthShare(index), i), U64_MAX)
      requires children.streams == Min(ChildrenSum(index, rank, owner, StreamShare(index), i), U32_MAX)
      ensures agg.length == Min(SubtreeSum(index, rank, owner, LengthShare(index), i, nameInfo, totalNames), U64_MAX)
      ensures agg.streams == Min(SubtreeSum(index, rank, owner, StreamShare(index), i, nameInfo, totalNames), U32_MAX)
    {
      assert ChainsEnd(index, i);
      var r := index.records[i];
      var own := AccumulateOwnStreams(r, nameInfo, totalNames);
      agg := Agg(SatAdd(children.length, own, U64_MAX), SatAdd(children.streams, Max(r.totalStreamCount, 1), U32_MAX));
      PropagatedIs(index, rank, owner, i, nameInfo, totalNames, children, own);
    }

    /** Visit what is below a record, if it is a directory. */
    method VisitBelow(i: nat, ghost rank: nat -> nat, ghost owner: nat -> nat, ghost busy: set<nat>) returns (children: Agg)
      requires Sound(index, rank, owner) && Shaped() && i < |index.records|
      requires AllPrinted(rank, owner, busy) && forall b :: b in busy ==> rank(b) >= rank(i)
      modifies seen, printed
      ensures AllPrinted(rank, owner, busy)
      ensures Marked(index, old(seen[..]), seen[..], Visited(index, rank, owner, i))
      ensures children.length == Min(ChildrenSum(index, rank, owner, LengthShare(index), i), U64_MAX)
      ensures children.streams == Min(ChildrenSum(index, rank, owner, StreamShare(index), i), U32_MAX)
      ensures !index.records[i].isDirectory ==> children == Agg(0, 0)
      decreases rank(i), 1
    {
      if index.records[i].isDirectory {
        children := AggregateChildren(i, rank, owner, busy);
      } else {
        FileHasNoChildren(index, rank, owner, i);
        children := Agg(0, 0);
      }
    }

    /** What a record shows: a directory its children's sums and its own default stream, a file that stream alone. */
    method StorePrinted(i: nat, children: Agg)
      requires Shaped() && i < |index.records|
      modifies printed
      ensures printed[..] == old(printed[..])[i := Shown(index.records[i], children)]
    {
      var r := index.records[i];
      if r.isDirectory {
        printed[i] := Printed(SatAdd(children.streams, 1, U32_MAX), SatAdd(children.length, r.firstLen, U64_MAX));
      } else {
        printed[i] := Printed(0, r.firstLen);
      }
    }

    /** Visit the entries of a directory's chain, one after the other. */
    method AggregateChildren(d: nat, ghost rank: nat -> nat, ghost owner: nat -> nat, ghost busy: set<nat>)
      returns (agg: Agg)
      requires Sound(index, rank, owner) && Shaped() && d < |index.records| && index.records[d].isDirectory
      requires AllPrinted(rank, owner, busy) && forall b :: b in busy ==> rank(b) >= rank(d)
      modifies seen, printed
      ensures AllPrinted(rank, owner, busy)
      ensures Marked(index, old(seen[..]), seen[..], Visited(index, rank, owner, d))
      ensures agg.length == Min(ChildrenSum(index, rank, owner, LengthShare(index), d), U64_MAX)
      ensures agg.streams == Min(ChildrenSum(index, rank, owner, StreamShare(index), d), U32_MAX)
      decreases rank(d), 0
    {
      assert ChainsEnd(index, d);
      agg := Agg(0, 0);
      var at := index.records[d].firstChild;
      ghost var chain := ChildChain(index, d);
      ghost var k := 0;
      while at != NO_ENTRY
        invariant k <= |chain| && Links(ChildNexts(index.children), at, |index.children|) == Some(chain[k..])
        invariant Within(index, d, chain[..k])
        invariant AllPrinted(rank, owner, busy)
        invariant Marked(index, old(seen[..]), seen[..], VisitedChain(index, rank, owner, d, chain[..k]))
        invariant Summed(index, rank, owner, d, chain[..k], agg)
        decreases |chain| - k
      {
        ChainStep(ChildNexts(index.children), at, |index.children|);
        PrefixSnoc(index, rank, owner, d, chain, k);
        ghost var marked := seen[..];
        var child := AddEntry(d, at, rank, owner, busy);
        MarkedConcat(index, old(seen[..]), marked, seen[..],
                     VisitedChain(index, rank, owner, d, chain[..k]), [at] + VisitedUnder(index, rank, owner, d, at));
        SummedSnoc(index, rank, owner, d, chain, k, agg, child);
        agg := AddAgg(agg, child);
        at := index.children[at].nextEntry;
        k := k + 1;
      }
      assert chain[..k] == chain;
    }

    /** Visit the child that one entry leads to, under the name it stands for. */
    method AddEntry(d: nat, e: nat, ghost rank: nat -> nat, ghost owner: nat -> nat, ghost busy: set<nat>)
      returns (agg: Agg)
      requires Sound(index, rank, owner) && Shaped() && e in ChildChain(index, d) && e < |index.children|
      requires AllPrinted(rank, owner, busy) && forall b :: b in busy ==> rank(b) >= rank(d)
      modifies seen, printed
      ensures AllPrinted(rank, owner, busy)
      ensures Marked(index, old(seen[..]), seen[..], [e] + VisitedUnder(index, rank, owner, d, e))
      ensures agg.length == Min(EntrySum(index, rank, owner, LengthShare(index), d, e), U64_MAX)
      ensures agg.streams == Min(EntrySum(index, rank, owner, StreamShare(index), d, e), U32_MAX)
      decreases rank(d), 0, 0
    {
      assert EntryOk(index, rank, owner, d, e);
      agg := Agg(0, 0);
      var child := ChildOf(index, e);
      if child.Some? {
        var n := index.records[child.value].nameCount;
        var nameInfo := NameInfo(index.children[e].nameIndex, n);
        agg := Preprocess(child.value, nameInfo, Max(n, 1), rank, owner, busy);
      }
      MarkedEntry(index, old(seen[..]), seen[..], e, VisitedUnder(index, rank, owner, d, e));
    }

    // ----- The whole computation -----

    /** Visit everything below the root directory, if the volume has one. */
    method TraverseFromRoot(ghost rank: nat -> nat, ghost owner: nat -> nat)
      requires Sound(index, rank, owner) && Shaped() && forall i :: 0 <= i < seen.Length ==> !seen[i]
      modifies seen, printed
      ensures AllPrinted(rank, owner, {})
      ensures forall r :: 0 <= r < seen.Length ==> (seen[r] <==> FromRoot(index, r))
    {
      var root := RootIndex(index);
      if root.Some? {
        assert EntryInRange(index, Records.ROOT_FRS);
        ghost var before := seen[..][root.value := true];
        var agg := Preprocess(root.value, 0, 1, rank, owner, {});
        forall r | 0 <= r < seen.Length ensures seen[r] <==> FromRoot(index, r) {
          assert MarkedAt(index, before, seen[..], Visited(index, rank, owner, root.value), r);
          ReachedIffEntered(index, rank, owner, root.value, r);
        }
      }
    }

    method VisitOrphan(i: nat, ghost rank: nat -> nat, ghost owner: nat -> nat)
      requires Sound(index, rank, owner) && Shaped() && AllPrinted(rank, owner, {}) && i < |index.records|
      modifies seen, printed
      ensures AllPrinted(rank, owner, {})
      ensures seen[i] && forall r :: 0 <= r < seen.Length && old(seen[r]) ==> seen[r]
    {
      if !seen[i] {
        ghost var before := seen[..][i := true];
        var agg := Preprocess(i, 0, 1, rank, owner, {});
        MarksStay(index, before, seen[..], Visited(index, rank, owner, i));
        assert forall r :: 0 <= r < seen.Length ==> (before[r] ==> seen[..][r]);
      }
    }

    /** Visit every record that is still unseen. */
    method SweepOrphans(ghost rank: nat -> nat, ghost owner: nat -> nat)
      requires Sound(index, rank, owner) && Shaped() && AllPrinted(rank, owner, {})
      modifies seen, printed
      ensures AllPrinted(rank, owner, {})
      ensures forall r :: 0 <= r < seen.Length ==> seen[r]
    {
      for i := 0 to |index.records|
        invariant AllPrinted(rank, owner, {})
        invariant forall r :: 0 <= r < i ==> seen[r]
      {
        VisitOrphan(i, rank, owner);
      }
    }

    /**
     Every visited record prints the sums over its subtree. Without the sweep the
     visited records are those reached from the root; with it, all of them.
     */
    method Run(ghost rank: nat -> nat, ghost owner: nat -> nat)
      requires Sound(index, rank, owner) && Shaped() && forall i :: 0 <= i < seen.Length ==> !seen[i]
      modifies seen, printed
      ensures forall r :: 0 <= r < seen.Length ==> (seen[r] <==> !skipOrphans || FromRoot(index, r))
      ensures forall r :: 0 <= r < seen.Length && seen[r] ==> printed[r] == PrintedFor(index, rank, owner, r)
    {
      TraverseFromRoot(rank, owner);
      if !skipOrphans { SweepOrphans(rank, owner); }
    }
  }

  function RootIndex(m: MftIndex): Option<nat> {
    if Records.ROOT_FRS >= |m.frsToIdx| || m.frsToIdx[Records.ROOT_FRS] == NO_ENTRY then None else Some(m.frsToIdx[Records.ROOT_FRS])
  }

  /** The record lies below the root directory of the volume. */
  ghost predicate FromRoot(m: MftIndex, r: nat) {
    |m.frsToIdx| > 5 && m.frsToIdx[5] != 0xFFFF_FFFF && Reached(m, m.frsToIdx[5], r)
  }

  /** The root prints everything below it, each record once, and its own default stream. */
  lemma RootPrintsEverything(m: MftIndex, rank: nat -> nat, owner: nat -> nat, root: nat)
    requires WellLinked(m, rank, owner) && AllNamesReached(m, root) && root < |m.records|
    requires m.records[root].isDirectory && forall i: nat :: StreamsDivide(m, i)
    requires ReachedTotal(m, root, |m.records|) <= U64_MAX
    ensures OwnTotal(m, root) <= ReachedTotal(m, root, |m.records|)
    ensures PrintedFor(m, rank, owner, root).treesize ==
            SatAdd(ReachedTotal(m, root, |m.records|) - OwnTotal(m, root), m.records[root].firstLen, U64_MAX)
  {
    RootChildrenConserve(m, rank, owner, root);
  }

  function WofEntry(m: MftIndex, chain: seq<nat>): nat {
    match WofPosition(m, chain) case None => NO_ENTRY case Some(p) => chain[p]
  }

  lemma WofLater(m: MftIndex, chain: seq<nat>)
    requires chain != [] && chain[0] < |m.streams| && m.streams[chain[0]].name != WOF_NAME
    ensures WofEntry(m, chain) == WofEntry(m, chain[1..])
  {}

  lemma NothingToDivide(nameInfo: nat, n: nat)
    ensures Delta(0, nameInfo, n) == 0
  {}

  lemma InternalStep(m: MftIndex, lengths: seq<nat>, chain: seq<nat>, k: nat, nameInfo: nat, n: nat)
    requires k < |chain| && chain[k] < |m.internalStreams|
    ensures ShareOf(lengths + InternalChainLengths(m, chain[..k + 1]), nameInfo, n) ==
            ShareOf(lengths + InternalChainLengths(m, chain[..k]), nameInfo, n) +
            Delta(m.internalStreams[chain[k]].length, nameInfo, n)
  {
    assert chain[..k + 1][..k] == chain[..k];
    var before := InternalChainLengths(m, chain[..k]);
    var x := m.internalStreams[chain[k]].length;
    assert lengths + (before + [x]) == (lengths + before) + [x];
    ShareSnoc(lengths + before, x, nameInfo, n);
  }

  lemma NamedStep(m: MftIndex, wof: nat, lengths: seq<nat>, chain: seq<nat>, k: nat, nameInfo: nat, n: nat)
    requires k < |chain| && chain[k] < |m.streams|
    ensures ShareOf(lengths + NamedLengths(m, wof, chain[..k + 1]), nameInfo, n) ==
            ShareOf(lengths + NamedLengths(m, wof, chain[..k]), nameInfo, n) +
            Delta(if chain[k] == wof then 0 else m.streams[chain[k]].length, nameInfo, n)
  {
    assert chain[..k + 1][..k] == chain[..k];
    var before := NamedLengths(m, wof, chain[..k]);
    var x := if chain[k] == wof then 0 else m.streams[chain[k]].length;
    assert lengths + (before + [x]) == (lengths + before) + [x];
    ShareSnoc(lengths + before, x, nameInfo, n);
  }

  lemma FileHasNoChildren(m: MftIndex, rank: nat -> nat, owner: nat -> nat, i: nat)
    requires Ranked(m, rank, owner) && i < |m.records| && !m.records[i].isDirectory
    ensures Visited(m, rank, owner, i) == []
    ensures ChildrenSum(m, rank, owner, LengthShare(m), i) == 0 == ChildrenSum(m, rank, owner, StreamShare(m), i)
  {}

  lemma SubtreeIsChildrenAndOwn(m: MftIndex, rank: nat -> nat, owner: nat -> nat, i: nat, nameInfo: nat, n: nat)
    requires Ranked(m, rank, owner) && i < |m.records|
    ensures SubtreeSum(m, rank, owner, LengthShare(m), i, nameInfo, n) ==
            ChildrenSum(m, rank, owner, LengthShare(m), i) + ShareOf(OwnLengths(m, m.records[i]), nameInfo, n)
    ensures SubtreeSum(m, rank, owner, StreamShare(m), i, nameInfo, n) ==
            ChildrenSum(m, rank, owner, StreamShare(m), i) + Max(m.records[i].totalStreamCount, 1)
  {}

  lemma SaturatedSum(a: nat, b: nat, max: nat)
    ensures SatAdd(Min(a, max), b, max) == SatAdd(Min(a, max), Min(b, max), max) == Min(a + b, max)
  {}

  lemma PropagatedIs(m: MftIndex, rank: nat -> nat, owner: nat -> nat, i: nat, nameInfo: nat, n: nat, children: Agg, own: nat)
    requires Ranked(m, rank, owner) && i < |m.records|
    requires children.length == Min(ChildrenSum(m, rank, owner, LengthShare(m), i), U64_MAX)
    requires children.streams == Min(ChildrenSum(m, rank, owner, StreamShare(m), i), U32_MAX)
    requires own == Min(ShareOf(OwnLengths(m, m.records[i]), nameInfo, n), U64_MAX)
    ensures SatAdd(children.length, own, U64_MAX) ==
            Min(SubtreeSum(m, rank, owner, LengthShare(m), i, nameInfo, n), U64_MAX)
    ensures SatAdd(children.streams, Max(m.records[i].totalStreamCount, 1), U32_MAX) ==
            Min(SubtreeSum(m, rank, owner, StreamShare(m), i, nameInfo, n), U32_MAX)
  {
    SubtreeIsChildrenAndOwn(m, rank, owner, i, nameInfo, n);
    SaturatedSum(ChildrenSum(m, rank, owner, LengthShare(m), i), ShareOf(OwnLengths(m, m.records[i]), nameInfo, n), U64_MAX);
    SaturatedSum(ChildrenSum(m, rank, owner, StreamShare(m), i), Max(m.records[i].totalStreamCount, 1), U32_MAX);
  }

  function AddAgg(a: Agg, b: Agg): Agg {
    Agg(SatAdd(a.length, b.length, U64_MAX), SatAdd(a.streams, b.streams, U32_MAX))
  }

  /** An aggregate carries the saturated sums of some entries. */
  ghost predicate Summed(m: MftIndex, rank: nat -> nat, owner: nat -> nat, d: nat, entries: seq<nat>, agg: Agg)
    requires Ranked(m, rank, owner) && Within(m, d, entries)
  {
    && agg.length == Min(ChainSum(m, rank, owner, LengthShare(m), d, entries), U64_MAX)
    && agg.streams == Min(ChainSum(m, rank, owner, StreamShare(m), d, entries), U32_MAX)
  }

  lemma PrefixSnoc(m: MftIndex, rank: nat -> nat, owner: nat -> nat, d: nat, chain: seq<nat>, k: nat)
    requires Ranked(m, rank, owner) && k < |chain| && chain == ChildChain(m, d)
    ensures Within(m, d, chain[..k]) && Within(m, d, chain[..k + 1])
    ensures VisitedChain(m, rank, owner, d, chain[..k + 1]) ==
            VisitedChain(m, rank, owner, d, chain[..k]) + ([chain[k]] + VisitedUnder(m, rank, owner, d, chain[k]))
  {
    assert chain[..k + 1][..k] == chain[..k];
  }

  /** Saturating step by step is saturating at the end. */
  lemma SaturatedSnoc(m: MftIndex, rank: nat -> nat, owner: nat -> nat, own: Own, d: nat, chain: seq<nat>, k: nat, max: nat)
    requires Ranked(m, rank, owner) && k < |chain| && chain == ChildChain(m, d)
    requires Within(m, d, chain[..k]) && Within(m, d, chain[..k + 1])
    ensures Min(ChainSum(m, rank, owner, own, d, chain[..k + 1]), max) ==
            SatAdd(Min(ChainSum(m, rank, owner, own, d, chain[..k]), max),
                   Min(EntrySum(m, rank, owner, own, d, chain[k]), max), max)
  {
    assert chain[..k + 1][..k] == chain[..k];
  }

  lemma SummedSnoc(m: MftIndex, rank: nat -> nat, owner: nat -> nat, d: nat, chain: seq<nat>, k: nat, agg: Agg, child: Agg)
    requires Ranked(m, rank, owner) && k < |chain| && chain == ChildChain(m, d)
    requires Within(m, d, chain[..k]) && Within(m, d, chain[..k + 1]) && Summed(m, rank, owner, d, chain[..k], agg)
    requires child.length == Min(EntrySum(m, rank, owner, LengthShare(m), d, chain[k]), U64_MAX)
    requires child.streams == Min(EntrySum(m, rank, owner, StreamShare(m), d, chain[k]), U32_MAX)
    ensures Summed(m, rank, owner, d, chain[..k + 1], AddAgg(agg, child))
  {
    SaturatedSnoc(m, rank, owner, LengthShare(m), d, chain, k, U64_MAX);
    SaturatedSnoc(m, rank, owner, StreamShare(m), d, chain, k, U32_MAX);
  }

  /** Marks are only added, one for each record that a followed entry leads to. */
  ghost predicate Marked(m: MftIndex, before: seq<bool>, now: seq<bool>, followed: seq<nat>) {
    |before| == |now| && forall r :: 0 <= r < |now| ==> MarkedAt(m, before, now, followed, r)
  }

  ghost predicate MarkedAt(m: MftIndex, before: seq<bool>, now: seq<bool>, followed: seq<nat>, r: nat)
    requires |before| == |now| && r < |now|
  {
    now[r] <==> before[r] || CountIf(followed, PointsTo(m, r)) > 0
  }

  lemma MarksStay(m: MftIndex, before: seq<bool>, now: seq<bool>, followed: seq<nat>)
    requires Marked(m, before, now, followed)
    ensures forall r :: 0 <= r < |now| && before[r] ==> now[r]
  {
    forall r | 0 <= r < |now| && before[r] ensures now[r] {
      assert MarkedAt(m, before, now, followed, r);
    }
  }

  lemma MarkedConcat(m: MftIndex, a: seq<bool>, b: seq<bool>, c: seq<bool>, first: seq<nat>, second: seq<nat>)
    requires Marked(m, a, b, first) && Marked(m, b, c, second)
    ensures Marked(m, a, c, first + second)
  {
    forall r | 0 <= r < |c| ensures MarkedAt(m, a, c, first + second, r) {
      assert MarkedAt(m, a, b, first, r) && MarkedAt(m, b, c, second, r);
      CountConcat(first, second, PointsTo(m, r));
    }
  }

  /** The record that an entry leads to is marked before its own subtree is. */
  lemma MarkedEntry(m: MftIndex, before: seq<bool>, now: seq<bool>, e: nat, under: seq<nat>)
    requires match ChildOf(m, e)
             case Some(c) => c < |before| && Marked(m, before[c := true], now, under)
             case None => now == before && under == []
    ensures Marked(m, before, now, [e] + under)
  {
    forall r | 0 <= r < |now| ensures MarkedAt(m, before, now, [e] + under, r) {
      if ChildOf(m, e).Some? { assert MarkedAt(m, before[ChildOf(m, e).value := true], now, under, r); }
      CountConcat([e], under, PointsTo(m, r));
      assert [e][..0] == [];
    }
  }
}
