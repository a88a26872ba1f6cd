/**
 Which lengths of a file record are counted: its default stream, its internal
 streams and its named streams, except that a file with the compression tag does
 not count the first stream of the compression name.
 */
module CompressedStreams {
  import opened Basics
  import opened TreeMetrics
  import opened LinkConservation

  /** Lengths along a chain of streams. */
  function ChainLength(s: seq<StreamInfo>, chain: seq<nat>): nat {
    if chain == [] then 0
    else ChainLength(s, chain[1..]) + if chain[0] < |s| then s[chain[0]].length else 0
  }

  predicate HasCompressedName(s: seq<StreamInfo>, chain: seq<nat>, k: nat) {
    k < |chain| && chain[k] < |s| && s[chain[k]].name == "WofCompressedData"
  }

  /** The first stream of the compression name stands at position `k` of the chain. */
  ghost predicate CompressedAt(s: seq<StreamInfo>, chain: seq<nat>, k: nat) {
    HasCompressedName(s, chain, k) && forall j: nat :: j < k ==> !HasCompressedName(s, chain, j)
  }

  ghost predicate IsCompressed(m: MftIndex, r: FileRecord) {
    r.reparseTag == 0x8000_0017 && exists k: nat :: CompressedAt(m.streams, StreamChain(m.streams, r.firstStreamNext), k)
  }

  /** What a compressed file leaves out. */
  ghost function LeftOut(m: MftIndex, r: FileRecord): nat {
    if IsCompressed(m, r) then
      var chain := StreamChain(m.streams, r.firstStreamNext);
      var k: nat :| CompressedAt(m.streams, chain, k);
      m.streams[chain[k]].length
    else 0
  }

  /** Internal streams: along their chain where it is kept, otherwise as one sum. */
  function InternalLength(m: MftIndex, r: FileRecord): nat {
    if r.firstInternalStream == 0xFFFF_FFFF || |m.internalStreams| == 0 then r.internalStreamsSize
    else ChainLength(m.internalStreams, StreamChain(m.internalStreams, r.firstInternalStream))
  }

  /** All streams of a record. */
  function FullLength(m: MftIndex, r: FileRecord): nat {
    r.firstLen + InternalLength(m, r) + ChainLength(m.streams, StreamChain(m.streams, r.firstStreamNext))
  }

  // ----- Sums along a chain -----

  lemma {:induction false} ChainLengthSnoc(s: seq<StreamInfo>, chain: seq<nat>)
    requires chain != []
    ensures var last := chain[|chain| - 1];
            ChainLength(s, chain) == ChainLength(s, chain[..|chain| - 1]) + if last < |s| then s[last].length else 0
  {
    if |chain| > 1 {
      ChainLengthSnoc(s, chain[1..]);
      assert chain[1..][..|chain| - 2] == chain[..|chain| - 1][1..];
    }
  }

  lemma SumSnoc(s: seq<nat>, x: nat)
    ensures Sum(s + [x]) == Sum(s) + x
  {
    assert (s + [x])[..|s|] == s;
  }

  lemma {:induction false} SumConcat(a: seq<nat>, b: seq<nat>)
    ensures Sum(a + b) == Sum(a) + Sum(b)
    decreases |b|
  {
    if b == [] {
      assert a + b == a;
    } else {
      assert (a + b)[..|a + b| - 1] == a + b[..|b| - 1];
      SumConcat(a, b[..|b| - 1]);
    }
  }

  lemma {:induction false} InternalSum(m: MftIndex, chain: seq<nat>)
    ensures Sum(InternalChainLengths(m, chain)) == ChainLength(m.internalStreams, chain)
  {
    if chain != [] {
      InternalSum(m, chain[..|chain| - 1]);
      ChainLengthSnoc(m.internalStreams, chain);
    }
  }

  /** The sum of the counted lengths misses the length of stream `wof`, if the chain holds it. */
  lemma {:induction false} NamedSum(m: MftIndex, wof: nat, chain: seq<nat>)
    requires Distinct(chain)
    ensures ChainLength(m.streams, chain) ==
            Sum(NamedLengths(m, wof, chain)) + if wof in chain && wof < |m.streams| then m.streams[wof].length else 0
  {
    if chain != [] {
      var init, last := chain[..|chain| - 1], chain[|chain| - 1];
      NamedSum(m, wof, init);
      ChainLengthSnoc(m.streams, chain);
      assert wof in chain <==> wof in init || wof == last;
      assert last !in init;
    }
  }

  // ----- The compressed stream -----

  lemma {:induction false} WofPositionIs(m: MftIndex, chain: seq<nat>, k: nat)
    ensures WofPosition(m, chain) == Some(k) <==> CompressedAt(m.streams, chain, k)
  {
    if chain != [] {
      var rest := chain[1..];
      forall j: nat ensures HasCompressedName(m.streams, chain, j + 1) <==> HasCompressedName(m.streams, rest, j) {
        if j < |rest| { assert rest[j] == chain[j + 1]; }
      }
      if k > 0 {
        WofPositionIs(m, rest, k - 1);
        assert CompressedAt(m.streams, chain, k) <==>
               !HasCompressedName(m.streams, chain, 0) && CompressedAt(m.streams, rest, k - 1) by {
          LaterIs(m.streams, chain, k);
        }
      }
    }
  }

  lemma LaterIs(s: seq<StreamInfo>, chain: seq<nat>, k: nat)
    requires chain != [] && k > 0
    ensures CompressedAt(s, chain, k) <==> !HasCompressedName(s, chain, 0) && CompressedAt(s, chain[1..], k - 1)
  {
    var rest := chain[1..];
    forall j: nat ensures HasCompressedName(s, chain, j + 1) <==> HasCompressedName(s, rest, j) {
      if j < |rest| { assert rest[j] == chain[j + 1]; }
    }
    if !HasCompressedName(s, chain, 0) && CompressedAt(s, rest, k - 1) {
      forall j: nat | j < k ensures !HasCompressedName(s, chain, j) {
        if j > 0 { assert !HasCompressedName(s, rest, j - 1); }
      }
    }
    if CompressedAt(s, chain, k) {
      forall j: nat | j < k - 1 ensures !HasCompressedName(s, rest, j) { assert !HasCompressedName(s, chain, j + 1); }
    }
  }

  lemma OneFirst(s: seq<StreamInfo>, chain: seq<nat>, j: nat, k: nat)
    requires CompressedAt(s, chain, j) && CompressedAt(s, chain, k)
    ensures j == k
  {}

  lemma StreamChainIs(s: seq<StreamInfo>, head: nat)
    ensures Distinct(StreamChain(s, head))
    ensures forall k :: 0 <= k < |StreamChain(s, head)| ==> StreamChain(s, head)[k] != NO_ENTRY
  {
    if Links(StreamNexts(s), head, |s|).Some? {
      LinksDistinct(StreamNexts(s), head, |s|);
      forall k | 0 <= k < |StreamChain(s, head)| ensures StreamChain(s, head)[k] != NO_ENTRY {
        LinksSuffix(StreamNexts(s), head, |s|, k);
      }
    }
  }

  lemma NamedSumIs(m: MftIndex, r: FileRecord)
    ensures var chain := StreamChain(m.streams, r.firstStreamNext);
            Sum(NamedLengths(m, WofStream(m, r), chain)) + LeftOut(m, r) == ChainLength(m.streams, chain)
  {
    var chain := StreamChain(m.streams, r.firstStreamNext);
    StreamChainIs(m.streams, r.firstStreamNext);
    NamedSum(m, WofStream(m, r), chain);
    if IsCompressed(m, r) {
      var k: nat :| CompressedAt(m.streams, chain, k) && LeftOut(m, r) == m.streams[chain[k]].length;
      WofPositionIs(m, chain, k);
    } else if r.reparseTag == 0x8000_0017 && WofPosition(m, chain).Some? {
      WofPositionIs(m, chain, WofPosition(m, chain).value);
    }
  }

  /**
   What a record counts: all of its streams, but of a file with tag 0x8000_0017
   not the first stream named "WofCompressedData".
   */
  lemma RecordCounts(m: MftIndex, i: nat)
    requires i < |m.records|
    ensures OwnTotal(m, i) + LeftOut(m, m.records[i]) == FullLength(m, m.records[i])
  {
    var r := m.records[i];
    var named := NamedLengths(m, WofStream(m, r), StreamChain(m.streams, r.firstStreamNext));
    SumConcat([r.firstLen] + InternalLengths(m, r), named);
    SumConcat([r.firstLen], InternalLengths(m, r));
    SumSnoc([], r.firstLen);
    assert [] + [r.firstLen] == [r.firstLen];
    NamedSumIs(m, r);
    if r.firstInternalStream != 0xFFFF_FFFF && |m.internalStreams| != 0 {
      InternalSum(m, StreamChain(m.internalStreams, r.firstInternalStream));
    } else {
      SumSnoc([], r.internalStreamsSize);
      assert [] + [r.internalStreamsSize] == [r.internalStreamsSize];
    }
  }

  /** For a compressed file that is the length of the stream at the first position of that name. */
  lemma CompressedLeavesOut(m: MftIndex, r: FileRecord, k: nat)
    requires CompressedAt(m.streams, StreamChain(m.streams, r.firstStreamNext), k)
    ensures LeftOut(m, r) ==
            if r.reparseTag == 0x8000_0017 then m.streams[StreamChain(m.streams, r.firstStreamNext)[k]].length else 0
  {
    if r.reparseTag == 0x8000_0017 {
      var chain := StreamChain(m.streams, r.firstStreamNext);
      var j: nat :| CompressedAt(m.streams, chain, j) && LeftOut(m, r) == m.streams[chain[j]].length;
      OneFirst(m.streams, chain, j, k);
    }
  }

  // ----- Conservation -----

  ghost function Counted(m: MftIndex, root: nat): nat -> int {
    (i: nat) => if i < |m.records| && Reached(m, root, i) then FullLength(m, m.records[i]) - LeftOut(m, m.records[i]) else 0
  }

  ghost function CountedUpTo(m: MftIndex, root: nat, n: nat): int {
    if n == 0 then 0 else CountedUpTo(m, root, n - 1) + Counted(m, root)(n - 1)
  }

  lemma {:induction false} ReachedTotalIsCounted(m: MftIndex, root: nat, n: nat)
    requires n <= |m.records|
    ensures ReachedTotal(m, root, n) == CountedUpTo(m, root, n)
  {
    if n > 0 {
      ReachedTotalIsCounted(m, root, n - 1);
      RecordCounts(m, n - 1);
    }
  }

  /** The root propagates, for every reached record, all of its streams once and of a compressed file not the compressed one. */
  lemma RootCountsStreams(m: MftIndex, rank: nat -> nat, owner: nat -> nat, root: nat)
    requires WellLinked(m, rank, owner) && AllNamesReached(m, root) && root < |m.records|
    requires forall i: nat :: StreamsDivide(m, i)
    ensures SubtreeSum(m, rank, owner, LengthShare(m), root, 0, 1) == CountedUpTo(m, root, |m.records|)
  {
    HardLinkConservation(m, rank, owner, root);
    ReachedTotalIsCounted(m, root, |m.records|);
  }
}
