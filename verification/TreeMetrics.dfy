/**
 Folder sizes over an MFT index (tree_metrics.rs): every stream of a file with
 several names is divided among its names by floor division, and the shares are
 summed up the directory tree. This module says what is summed; the class
 TreeTraversal computes it.
 */
module TreeMetrics {
  import opened Basics

  const NO_ENTRY: nat := 0xFFFF_FFFF
  const WOF_TAG: nat := 0x8000_0017
  const WOF_NAME := "WofCompressedData"

  datatype StreamInfo = StreamInfo(name: string, length: nat, nextEntry: nat)

  datatype ChildInfo = ChildInfo(nextEntry: nat, childFrs: nat, nameIndex: nat)

  /** The fields of a file record that the length channel reads. */
  datatype FileRecord = FileRecord(
    isDirectory: bool, nameCount: nat, totalStreamCount: nat, reparseTag: nat, firstChild: nat,
    firstLen: nat, firstStreamNext: nat, firstInternalStream: nat, internalStreamsSize: nat)

  datatype MftIndex = MftIndex(
    records: seq<FileRecord>, frsToIdx: seq<nat>, streams: seq<StreamInfo>,
    internalStreams: seq<StreamInfo>, children: seq<ChildInfo>)

  // ----- The division of one stream -----

  /** Unsigned 64-bit subtraction. */
  function WrapSub(a: int, b: int): nat { (a - b + U64) % U64 }

  /** The share of name `nameInfo`: the step of the floor of value * i / n. Products wrap at 64 bits. */
  function Delta(value: nat, nameInfo: nat, totalNames: nat): nat {
    if totalNames <= 1 then value
    else WrapSub(value * (nameInfo + 1) % U64 / totalNames, value * nameInfo % U64 / totalNames)
  }

  /** Link indices count backwards; an index out of range is taken for the last. */
  function NameInfo(nameIndex: nat, totalNames: nat): nat {
    if totalNames <= 1 || nameIndex >= totalNames then 0 else totalNames - 1 - nameIndex
  }

  function SharesUpTo(value: nat, totalNames: nat, k: nat): nat {
    if k == 0 then 0 else SharesUpTo(value, totalNames, k - 1) + Delta(value, NameInfo(k - 1, totalNames), totalNames)
  }

  /** The stream is small enough for its products to stay below 64 bits. */
  predicate Divides(value: nat, totalNames: nat) { value * totalNames < U64 }

  lemma MulMonotone(value: nat, a: int, b: int)
    requires a <= b
    ensures value * a <= value * b
  {}

  lemma LessByProduct(n: nat, x: int, y: int)
    requires n * x < n * y
    ensures x < y
  {
    if x >= y { MulMonotone(n, y, x); }
  }

  lemma Quotient(a: nat, n: nat)
    requires n > 0
    ensures 0 <= a / n && n * (a / n) <= a < n * (a / n + 1)
  {
    assert a == n * (a / n) + a % n;
    assert n * (a / n + 1) == n * (a / n) + n;
  }

  lemma DivMonotone(a: nat, b: nat, n: nat)
    requires a <= b && n > 0
    ensures a / n <= b / n
  {
    Quotient(a, n);
    Quotient(b, n);
    LessByProduct(n, a / n, b / n + 1);
  }

  lemma ProductOfMore(n: nat, q: int, a: nat)
    requires n > 0 && n * q <= a
    ensures q <= a
  {
    if q > a {
      MulMonotone(q as nat, 1, n);
    }
  }

  lemma DivAtMost(a: nat, n: nat)
    requires n > 0
    ensures 0 <= a / n <= a
  {
    Quotient(a, n);
    ProductOfMore(n, a / n, a);
  }

  lemma WrapSubIs(x: int, y: int)
    requires 0 <= x - y < U64
    ensures WrapSub(x, y) == x - y
  {}

  lemma StepWithoutWrap(a: nat, b: nat, n: nat)
    requires a <= b < U64 && n > 0
    ensures 0 <= a / n <= b / n
    ensures WrapSub(b % U64 / n, a % U64 / n) == b / n - a / n
  {
    DivMonotone(a, b, n);
    DivAtMost(a, n);
    DivAtMost(b, n);
    assert b % U64 == b && a % U64 == a;
    QuotientsSubtract(b / n, a / n, b);
  }

  lemma QuotientsSubtract(x: int, y: int, b: int)
    requires 0 <= y <= x <= b < U64
    ensures WrapSub(x, y) == x - y
  {
    WrapSubIs(x, y);
  }

  lemma DeltaIsStep(value: nat, i: nat, n: nat)
    requires n > 1 && i < n && Divides(value, n)
    ensures value * i / n <= value * (i + 1) / n
    ensures Delta(value, i, n) == value * (i + 1) / n - value * i / n
  {
    MulMonotone(value, i, i + 1);
    MulMonotone(value, i + 1, n);
    StepWithoutWrap(value * i, value * (i + 1), n);
  }

  lemma QuotientOfSum(x: nat, v: nat, n: nat)
    requires n > 0
    ensures v / n <= (x + v) / n - x / n <= v / n + 1
  {
    Quotient(x, n);
    Quotient(v, n);
    Quotient(x + v, n);
    var low, high := x / n + v / n, (x + v) / n;
    assert n * low == n * (x / n) + n * (v / n);
    assert n * (high + 1) == n * high + n;
    LessByProduct(n, low, high + 1);
    assert n * (low + 2) == n * (x / n + 1) + n * (v / n + 1);
    LessByProduct(n, high, low + 2);
  }

  /**
   Link `k` of a stream takes what lies between two floors, counted backwards: the
   shares differ by at most one byte, and a link out of range takes the smallest.
   */
  lemma ShareIsFair(value: nat, n: nat, k: nat)
    requires n > 1 && Divides(value, n)
    ensures var share := Delta(value, NameInfo(k, n), n);
            && value / n <= share <= value / n + 1
            && (k < n ==> share == value * (n - k) / n - value * (n - 1 - k) / n)
            && (k >= n ==> share == value / n)
  {
    var i := NameInfo(k, n);
    DeltaIsStep(value, i, n);
    assert value * (i + 1) == value * i + value;
    QuotientOfSum(value * i, value, n);
    if k >= n { assert value * 0 == 0 && value * 1 == value; }
  }

  lemma WholeQuotient(value: nat, n: nat)
    requires n > 0
    ensures value * n / n == value
  {
    Quotient(value * n, n);
    assert value * n == n * value;
    LessByProduct(n, value, value * n / n + 1);
    if value * n / n > value { MulMonotone(n, value + 1, value * n / n); }
  }

  /** The first k links together take what the floor at the (n - k)-th step leaves. */
  lemma {:induction false} SharesTelescope(value: nat, n: nat, k: nat)
    requires n > 1 && k <= n && Divides(value, n)
    ensures SharesUpTo(value, n, k) == value - value * (n - k) / n
  {
    if k == 0 {
      WholeQuotient(value, n);
    } else {
      SharesTelescope(value, n, k - 1);
      DeltaIsStep(value, n - k, n);
    }
  }

  /** The shares of all links add up to the stream. */
  lemma SharesAddUp(value: nat, n: nat)
    requires n > 0 && Divides(value, n)
    ensures SharesUpTo(value, n, n) == value
  {
    if n > 1 {
      SharesTelescope(value, n, n);
      NothingLeft(value, n);
    } else {
      assert SharesUpTo(value, 1, 0) == 0;
    }
  }

  lemma NothingLeft(value: nat, n: nat)
    requires n > 0
    ensures value * (n - n) / n == 0
  {
    assert value * 0 == 0;
  }

  /** The floor that the code computes at step i: its product wraps. */
  function Floor(value: nat, n: nat, i: nat): (f: int)
    requires n > 0
    ensures 0 <= f && n * f < U64
  {
    Quotient(value * i % U64, n);
    value * i % U64 / n
  }

  lemma WrapSubSteps(x: int, y: int) returns (carry: nat)
    requires 0 <= x < U64 && 0 <= y < U64
    ensures WrapSub(x, y) == x - y + carry * U64
  {
    carry := if x >= y then 0 else 1;
  }

  lemma FloorBelow(value: nat, n: nat, i: nat)
    requires n > 0
    ensures Floor(value, n, i) < U64
  {
    ProductOfMore(n, Floor(value, n, i), U64 - 1);
  }

  /** Up to multiples of 2 to the 64, the shares telescope whether or not products wrap. */
  lemma {:induction false} SharesModulo(value: nat, n: nat, k: nat) returns (carry: nat)
    requires n > 1 && k <= n
    ensures SharesUpTo(value, n, k) == Floor(value, n, n) - Floor(value, n, n - k) + carry * U64
  {
    if k == 0 {
      carry := 0;
    } else {
      var before := SharesModulo(value, n, k - 1);
      FloorBelow(value, n, n - k + 1);
      FloorBelow(value, n, n - k);
      var step := WrapSubSteps(Floor(value, n, n - k + 1), Floor(value, n, n - k));
      carry := before + step;
    }
  }

  /** The shares of several links add up to the stream if and only if the stream times the links stays below 64 bits. */
  lemma SharesAddUpIffDivides(value: nat, n: nat)
    requires n > 1 && value < U64
    ensures SharesUpTo(value, n, n) == value <==> Divides(value, n)
  {
    if Divides(value, n) {
      SharesAddUp(value, n);
    } else {
      var carry := SharesModulo(value, n, n);
      FloorBelow(value, n, n);
      FloorOfZero(value, n);
      SmallerProduct(value, n, Floor(value, n, n));
      if SharesUpTo(value, n, n) == value { NoCarry(value, Floor(value, n, n), carry); }
    }
  }

  lemma SmallerProduct(value: nat, n: nat, floor: int)
    requires n * floor < value * n
    ensures floor != value
  {}

  lemma NoCarry(value: nat, floor: int, carry: nat)
    requires 0 <= floor && value < U64 && floor + carry * U64 == value
    ensures floor == value
  {}

  lemma FloorOfZero(value: nat, n: nat)
    requires n > 0
    ensures Floor(value, n, n - n) == 0
  {
    assert value * 0 == 0;
  }

  // ----- Linked chains -----

  /** The entries on a chain, if it ends within `fuel` entries and stays in range. */
  function Links(next: seq<nat>, head: nat, fuel: nat): Option<seq<nat>>
    decreases fuel
  {
    if head == NO_ENTRY then Some([])
    else if fuel == 0 || head >= |next| then None
    else match Links(next, next[head], fuel - 1)
      case None => None
      case Some(rest) => Some([head] + rest)
  }

  lemma {:induction false} LinksMonotone(next: seq<nat>, head: nat, fuel: nat, more: nat)
    requires Links(next, head, fuel).Some? && fuel <= more
    ensures Links(next, head, more) == Links(next, head, fuel)
    decreases fuel
  {
    if head != NO_ENTRY {
      LinksMonotone(next, next[head], fuel - 1, more - 1);
    }
  }

  /** Every entry of a chain heads the rest of it. */
  lemma {:induction false} LinksSuffix(next: seq<nat>, head: nat, fuel: nat, k: nat)
    requires Links(next, head, fuel).Some? && k < |Links(next, head, fuel).value|
    ensures var c := Links(next, head, fuel).value;
            c[k] < |next| && c[k] != NO_ENTRY && Links(next, c[k], fuel) == Some(c[k..])
    decreases fuel
  {
    var c := Links(next, head, fuel).value;
    if k > 0 {
      LinksSuffix(next, next[head], fuel - 1, k - 1);
      assert c[1..][k - 1..] == c[k..];
      LinksMonotone(next, c[k], fuel - 1, fuel);
    }
  }

  lemma LinksDistinct(next: seq<nat>, head: nat, fuel: nat)
    requires Links(next, head, fuel).Some?
    ensures Distinct(Links(next, head, fuel).value)
  {
    var c := Links(next, head, fuel).value;
    forall i, j | 0 <= i < j < |c| ensures c[i] != c[j] {
      LinksSuffix(next, head, fuel, i);
      LinksSuffix(next, head, fuel, j);
      assert |c[i..]| != |c[j..]|;
    }
  }

  function StreamNexts(s: seq<StreamInfo>): (next: seq<nat>)
    ensures |next| == |s|
  {
    seq(|s|, i requires 0 <= i < |s| => s[i].nextEntry)
  }

  function ChildNexts(s: seq<ChildInfo>): (next: seq<nat>)
    ensures |next| == |s|
  {
    seq(|s|, i requires 0 <= i < |s| => s[i].nextEntry)
  }

  function StreamChain(s: seq<StreamInfo>, head: nat): seq<nat> {
    match Links(StreamNexts(s), head, |s|) case Some(c) => c case None => []
  }

  /** The child entries of a directory, in chain order. */
  function ChildChain(m: MftIndex, d: nat): seq<nat> {
    if d < |m.records| && m.records[d].isDirectory then
      match Links(ChildNexts(m.children), m.records[d].firstChild, |m.children|) case Some(c) => c case None => []
    else []
  }

  // ----- What a record contributes -----

  /** Position in its chain of the first stream with the compression name. */
  function WofPosition(m: MftIndex, chain: seq<nat>): (pos: Option<nat>)
    ensures pos.Some? ==> pos.value < |chain|
  {
    if chain == [] then None
    else if chain[0] < |m.streams| && m.streams[chain[0]].name == WOF_NAME then Some(0)
    else match WofPosition(m, chain[1..]) case None => None case Some(p) => Some(p + 1)
  }

  function WofStream(m: MftIndex, r: FileRecord): nat {
    var chain := StreamChain(m.streams, r.firstStreamNext);
    if r.reparseTag != WOF_TAG then NO_ENTRY
    else match WofPosition(m, chain) case None => NO_ENTRY case Some(p) => chain[p]
  }

  /** Lengths of the named streams, with the compressed one as zero. */
  function NamedLengths(m: MftIndex, wof: nat, chain: seq<nat>): seq<nat> {
    if chain == [] then []
    else
      var last := chain[|chain| - 1];
      NamedLengths(m, wof, chain[..|chain| - 1]) +
      [if last == wof || last >= |m.streams| then 0 else m.streams[last].length]
  }

  function InternalChainLengths(m: MftIndex, chain: seq<nat>): seq<nat> {
    if chain == [] then []
    else
      var last := chain[|chain| - 1];
      InternalChainLengths(m, chain[..|chain| - 1]) +
      [if last >= |m.internalStreams| then 0 else m.internalStreams[last].length]
  }

  /** Per stream where the chain is kept, otherwise their sum as one. */
  function InternalLengths(m: MftIndex, r: FileRecord): seq<nat> {
    if r.firstInternalStream != NO_ENTRY && m.internalStreams != [] then
      InternalChainLengths(m, StreamChain(m.internalStreams, r.firstInternalStream))
    else [r.internalStreamsSize]
  }

  /** The lengths of all streams of a record: default, internal, named. */
  function OwnLengths(m: MftIndex, r: FileRecord): seq<nat> {
    [r.firstLen] + InternalLengths(m, r) + NamedLengths(m, WofStream(m, r), StreamChain(m.streams, r.firstStreamNext))
  }

  function Sum(s: seq<nat>): nat { if s == [] then 0 else Sum(s[..|s| - 1]) + s[|s| - 1] }

  function ShareOf(lengths: seq<nat>, nameInfo: nat, totalNames: nat): nat {
    if lengths == [] then 0
    else ShareOf(lengths[..|lengths| - 1], nameInfo, totalNames) + Delta(lengths[|lengths| - 1], nameInfo, totalNames)
  }

  function OwnShare(m: MftIndex, i: nat, nameInfo: nat, totalNames: nat): nat {
    if i < |m.records| then ShareOf(OwnLengths(m, m.records[i]), nameInfo, totalNames) else 0
  }

  function OwnTotal(m: MftIndex, i: nat): nat { if i < |m.records| then Sum(OwnLengths(m, m.records[i])) else 0 }

  function TotalNames(m: MftIndex, i: nat): nat { if i < |m.records| then Max(m.records[i].nameCount, 1) else 1 }

  // ----- What the traversal sums -----

  function ChildOf(m: MftIndex, e: nat): Option<nat> {
    if e >= |m.children| || m.children[e].childFrs >= |m.frsToIdx| then None
    else
      var i := m.frsToIdx[m.children[e].childFrs];
      if i == NO_ENTRY then None else Some(i)
  }

  /** The link of its child that an entry stands for; a single name has link 0. */
  function LinkOf(m: MftIndex, e: nat): nat {
    if e >= |m.children| || ChildOf(m, e).None? || TotalNames(m, ChildOf(m, e).value) <= 1 then 0
    else m.children[e].nameIndex
  }

  /** An entry of a directory's chain leads to a record of lower rank, and belongs to no other directory. */
  ghost predicate EntryOk(m: MftIndex, rank: nat -> nat, owner: nat -> nat, d: nat, e: nat) {
    e in ChildChain(m, d) ==>
      && e < |m.children| && owner(e) == d
      && (ChildOf(m, e).Some? ==> ChildOf(m, e).value < |m.records| && rank(ChildOf(m, e).value) < rank(d))
  }

  /** Directories do not contain themselves, at any depth. */
  ghost predicate Ranked(m: MftIndex, rank: nat -> nat, owner: nat -> nat) {
    forall d: nat, e: nat :: EntryOk(m, rank, owner, d, e)
  }

  ghost predicate Within(m: MftIndex, d: nat, entries: seq<nat>) {
    forall k :: 0 <= k < |entries| ==> entries[k] in ChildChain(m, d)
  }

  /** What a record adds under one of its names, given the link index and the number of names. */
  type Own = (nat, nat, nat) -> nat

  function LengthShare(m: MftIndex): Own { (i: nat, nameInfo: nat, n: nat) => OwnShare(m, i, nameInfo, n) }

  /** Streams are counted in full under every name. */
  function StreamShare(m: MftIndex): Own {
    (i: nat, nameInfo: nat, n: nat) => if i < |m.records| then Max(m.records[i].totalStreamCount, 1) else 0
  }

  /** What a record propagates under one of its names: its own part and all its children's. */
  ghost function SubtreeSum(m: MftIndex, rank: nat -> nat, owner: nat -> nat, own: Own, i: nat, nameInfo: nat, n: nat): nat
    requires Ranked(m, rank, owner)
    decreases rank(i), 2, 0
  {
    ChainSum(m, rank, owner, own, i, ChildChain(m, i)) + own(i, nameInfo, n)
  }

  ghost function ChainSum(m: MftIndex, rank: nat -> nat, owner: nat -> nat, own: Own, d: nat, entries: seq<nat>): nat
    requires Ranked(m, rank, owner) && Within(m, d, entries)
    decreases rank(d), 1, |entries|
  {
    if entries == [] then 0
    else
      ChainSum(m, rank, owner, own, d, entries[..|entries| - 1]) +
      EntrySum(m, rank, owner, own, d, entries[|entries| - 1])
  }

  ghost function EntrySum(m: MftIndex, rank: nat -> nat, owner: nat -> nat, own: Own, d: nat, e: nat): nat
    requires Ranked(m, rank, owner) && e in ChildChain(m, d)
    decreases rank(d), 0, 0
  {
    assert EntryOk(m, rank, owner, d, e);
    match ChildOf(m, e)
    case None => 0
    case Some(c) =>
      SubtreeSum(m, rank, owner, own, c, NameInfo(m.children[e].nameIndex, TotalNames(m, c)), TotalNames(m, c))
  }

  ghost function ChildrenSum(m: MftIndex, rank: nat -> nat, owner: nat -> nat, own: Own, d: nat): nat
    requires Ranked(m, rank, owner)
  {
    ChainSum(m, rank, owner, own, d, ChildChain(m, d))
  }

  /** The smallest stream that wraps under 1024 links has 2 to the 54 bytes, more than NTFS allows to a file. */
  lemma SharesWrap()
    ensures SharesUpTo(0x40_0000_0000_0000, 1024, 1024) != 0x40_0000_0000_0000
  {
    SharesAddUpIffDivides(0x40_0000_0000_0000, 1024);
  }

  /** NTFS files have at most 2 to the 53 bytes and 1024 links, so their shares always add up. */
  lemma SharesAddUpOnNtfs(value: nat, n: nat)
    requires value <= 0x20_0000_0000_0000 && 0 < n <= 1024
    ensures SharesUpTo(value, n, n) == value
  {
    ProductAtMost(value, n, 0x20_0000_0000_0000, 1024);
    SharesAddUp(value, n);
  }

  lemma ProductAtMost(a: nat, b: nat, c: nat, d: nat)
    requires a <= c && b <= d
    ensures a * b <= c * d
  {
    assert a * b <= a * d && a * d <= c * d;
  }
}
