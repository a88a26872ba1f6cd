/** Building the base columns of an index, one record at a time (builder.rs). */
module Builder {
  import opened Basics
  import opened Records
  import opened FileRefMaps
  import opened Overlay
  import opened VolumeTree
  import opened Refinement

  /** The arguments of one `add_record` call. */
  datatype Addition = Addition(fileRef: FileRef, parentIdx: nat, name: string, flags: nat, rank: nat)

  // ----- What the columns of a list of additions are -----

  function NamesBlob(adds: seq<Addition>): string {
    if adds == [] then "" else NamesBlob(adds[..|adds| - 1]) + adds[|adds| - 1].name
  }

  function RecordFor(a: Addition, nameOffset: nat): EsRecord {
    EsRecord(a.fileRef, nameOffset, a.parentIdx, |a.name|, a.flags, 0, a.rank)
  }

  function BuiltRecords(adds: seq<Addition>): (records: seq<EsRecord>)
    ensures |records| == |adds|
  {
    if adds == [] then []
    else
      var init := adds[..|adds| - 1];
      BuiltRecords(init) + [RecordFor(adds[|adds| - 1], |NamesBlob(init)|)]
  }

  function BuiltPairs(adds: seq<Addition>): (pairs: seq<RefPair>)
    ensures |pairs| == |adds|
  {
    if adds == [] then []
    else BuiltPairs(adds[..|adds| - 1]) + [RefPair(adds[|adds| - 1].fileRef, |adds| - 1)]
  }

  /** Rows of the child table, laid end to end. */
  function RowsUpTo(records: seq<EsRecord>, k: nat): seq<nat> {
    if k == 0 then [] else RowsUpTo(records, k - 1) + Row(records, k - 1)
  }

  function OffsetsUpTo(records: seq<EsRecord>, k: nat): (offsets: seq<nat>)
    ensures |offsets| == k + 1
  {
    if k == 0 then [0] else OffsetsUpTo(records, k - 1) + [|RowsUpTo(records, k)|]
  }

  function BuiltBase(adds: seq<Addition>): Base {
    var records := BuiltRecords(adds);
    Base(records, NamesBlob(adds), OffsetsUpTo(records, |records|), RowsUpTo(records, |records|),
         FromPairs(BuiltPairs(adds)))
  }

  predicate ParentFits(a: Addition, len: nat) { a.parentIdx == PARENT_NONE || a.parentIdx < len }

  /** Limits of the fixed-width columns that `add_record` enforces, first failure first. */
  function AddResult(adds: seq<Addition>, name: string): Result<nat, EsError> {
    if |NamesBlob(adds)| > U32_MAX then Err(NamesBlobTooLarge(|NamesBlob(adds)|))
    else if |name| > U16_MAX then Err(NameTooLong(|name|))
    else if |adds| > U32_MAX then Err(RecordCountTooLarge(|adds|))
    else Ok(|adds|)
  }

  /** The k-th addition passes the size checks of `add_record`. */
  predicate AddFits(adds: seq<Addition>, k: nat)
    requires k < |adds|
  {
    AddResult(adds[..k], adds[k].name).Ok?
  }

  predicate SizesFit(adds: seq<Addition>) { forall k :: 0 <= k < |adds| ==> AddFits(adds, k) }

  /** Bytes of all names together. */
  function NameBytes(adds: seq<Addition>): nat {
    if adds == [] then 0 else NameBytes(adds[..|adds| - 1]) + |adds[|adds| - 1].name|
  }

  lemma {:induction false} BlobHoldsNames(adds: seq<Addition>)
    ensures |NamesBlob(adds)| == NameBytes(adds)
  {
    if adds != [] {
      BlobHoldsNames(adds[..|adds| - 1]);
    }
  }

  /**
   What is refused: a name of 64 KiB or more, and any record once the names before
   it exceed 32 bits or there are more records than 32 bits count.
   */
  lemma AddFitsIff(adds: seq<Addition>, k: nat)
    requires k < |adds|
    ensures AddFits(adds, k) <==>
            |adds[k].name| < 0x1_0000 && NameBytes(adds[..k]) < 0x1_0000_0000 && k < 0x1_0000_0000
  {
    BlobHoldsNames(adds[..k]);
  }

  /** Addition `i` names a parent outside the record column. */
  ghost predicate RejectedFor(adds: seq<Addition>, i: nat, error: EsError)
    requires i < |adds|
  {
    !ParentFits(adds[i], |adds|) && error == RecordIndexOutOfRange(adds[i].parentIdx)
  }

  // ----- The builder object -----

  lemma RowGrows(records: seq<EsRecord>, k: nat)
    requires k < |records|
    ensures forall p: nat :: RowUpTo(records, p, k + 1) == RowUpTo(records, p, k) + if records[k].parentIdx == p then [k] else []
  {}

  class EsIndexBuilder {
    var records: seq<EsRecord>
    var names: string
    var fileRefPairs: seq<RefPair>
    ghost var adds: seq<Addition>

    ghost predicate Valid()
      reads this
    {
      records == BuiltRecords(adds) && names == NamesBlob(adds) && fileRefPairs == BuiltPairs(adds)
    }

    constructor ()
      ensures Valid() && adds == []
    {
      records, names, fileRefPairs, adds := [], "", [], [];
    }

    /** Add one record and return its index; a failed call changes nothing. */
    method AddRecord(a: Addition) returns (r: Result<nat, EsError>)
      requires Valid()
      modifies this
      ensures Valid()
      ensures r == AddResult(old(adds), a.name)
      ensures adds == if r.Ok? then old(adds) + [a] else old(adds)
    {
      if |names| > U32_MAX { return Err(NamesBlobTooLarge(|names|)); }
      if |a.name| > U16_MAX { return Err(NameTooLong(|a.name|)); }
      if |records| > U32_MAX { return Err(RecordCountTooLarge(|records|)); }
      var idx := |records|;
      assert (adds + [a])[..|adds|] == adds;
      records := records + [RecordFor(a, |names|)];
      names := names + a.name;
      fileRefPairs := fileRefPairs + [RefPair(a.fileRef, idx)];
      adds := adds + [a];
      return Ok(idx);
    }

    /** One pass that appends each record to the bucket of its parent. */
    method FillBuckets() returns (bad: Option<EsError>, children: array<seq<nat>>)
      requires Valid() && |adds| <= PARENT_NONE
      ensures fresh(children) && children.Length == |adds|
      ensures bad.None? <==> forall i :: 0 <= i < |adds| ==> ParentFits(adds[i], |adds|)
      ensures bad.None? ==> forall p: nat :: p < |adds| ==> children[p] == Row(records, p)
      ensures bad.Some? ==> exists i :: 0 <= i < |adds| && RejectedFor(adds, i, bad.value)
    {
      var n := |records|;
      children := new seq<nat>[n](_ => []);
      for idx := 0 to n
        invariant forall i :: 0 <= i < idx ==> ParentFits(adds[i], n)
        invariant forall p: nat :: p < n ==> children[p] == RowUpTo(records, p, idx)
      {
        var parent := records[idx].parentIdx;
        BuiltRecordAt(adds, idx);
        RowGrows(records, idx);
        if parent != PARENT_NONE {
          if parent >= n {
            assert RejectedFor(adds, idx, RecordIndexOutOfRange(parent));
            return Some(RecordIndexOutOfRange(parent)), children;
          }
          children[parent] := children[parent] + [idx];
        }
      }
      return None, children;
    }

    /** Fill child buckets, lay them out as CSR columns and build the lookup table. */
    method Finish() returns (r: Result<Base, EsError>)
      requires Valid() && |adds| <= PARENT_NONE
      ensures r.Ok? <==> forall i :: 0 <= i < |adds| ==> ParentFits(adds[i], |adds|)
      ensures r.Ok? ==> r.value == BuiltBase(adds)
      ensures r.Err? ==> exists i :: 0 <= i < |adds| && RejectedFor(adds, i, r.error)
    {
      var bad, children := FillBuckets();
      if bad.Some? { return Err(bad.value); }
      var offsets, indices := [0], [];
      for p := 0 to |records|
        invariant indices == RowsUpTo(records, p) && offsets == OffsetsUpTo(records, p)
      {
        indices := indices + children[p];
        offsets := offsets + [|indices|];
      }
      var lookup := BuildFromPairs(fileRefPairs);
      return Ok(Base(records, names, offsets, indices, lookup));
    }
  }

  // ----- Every column says what was added -----

  lemma {:induction false} BuiltRecordAt(adds: seq<Addition>, i: nat)
    requires i < |adds|
    ensures BuiltRecords(adds)[i] == RecordFor(adds[i], |NamesBlob(adds[..i])|)
    ensures BuiltPairs(adds)[i] == RefPair(adds[i].fileRef, i)
  {
    var last := |adds| - 1;
    if i < last {
      BuiltRecordAt(adds[..last], i);
      assert adds[..last][..i] == adds[..i];
    }
  }

  /** The fields of a finished row; names stand one behind the other, and extensions are not numbered. */
  lemma BuiltRow(adds: seq<Addition>, i: nat)
    requires i < |adds|
    ensures var row := BuiltBase(adds).records[i];
            && row.fileRef == adds[i].fileRef && row.parentIdx == adds[i].parentIdx && row.flags == adds[i].flags
            && row.rank == adds[i].rank && row.extId == 0
            && row.nameOffset == NameBytes(adds[..i]) && row.nameLen == |adds[i].name|
  {
    BuiltRecordAt(adds, i);
    BlobHoldsNames(adds[..i]);
  }

  lemma {:induction false} NamesBlobSlice(adds: seq<Addition>, i: nat)
    requires i < |adds|
    ensures var start := |NamesBlob(adds[..i])|;
            && start + |adds[i].name| <= |NamesBlob(adds)|
            && NamesBlob(adds)[start..start + |adds[i].name|] == adds[i].name
  {
    var last := |adds| - 1;
    if i < last {
      NamesBlobSlice(adds[..last], i);
      assert adds[..last][..i] == adds[..i];
    }
  }

  /** The name slice of each record is the name that was added. */
  lemma BuiltNames(adds: seq<Addition>, i: nat)
    requires i < |adds|
    ensures BaseName(BuiltBase(adds), i) == Ok(adds[i].name)
  {
    BuiltRecordAt(adds, i);
    NamesBlobSlice(adds, i);
  }

  lemma {:induction false} RowsPrefix(records: seq<EsRecord>, k: nat, n: nat)
    requires k <= n
    ensures |RowsUpTo(records, k)| <= |RowsUpTo(records, n)|
    ensures RowsUpTo(records, n)[..|RowsUpTo(records, k)|] == RowsUpTo(records, k)
    ensures OffsetsUpTo(records, n)[k] == |RowsUpTo(records, k)|
    decreases n
  {
    if k < n {
      RowsPrefix(records, k, n - 1);
    }
  }

  lemma MiddleSlice(all: seq<nat>, before: seq<nat>, row: seq<nat>)
    requires |before| + |row| <= |all| && all[..|before| + |row|] == before + row
    ensures all[|before|..|before| + |row|] == row
  {
    assert all[|before|..|before| + |row|] == all[..|before| + |row|][|before|..];
  }

  lemma RowSlice(records: seq<EsRecord>, p: nat, n: nat)
    requires p < n
    ensures var start, end := OffsetsUpTo(records, n)[p], OffsetsUpTo(records, n)[p + 1];
            start <= end <= |RowsUpTo(records, n)| && RowsUpTo(records, n)[start..end] == Row(records, p)
  {
    RowsPrefix(records, p, n);
    RowsPrefix(records, p + 1, n);
    MiddleSlice(RowsUpTo(records, n), RowsUpTo(records, p), Row(records, p));
  }

  /** The CSR columns answer each child query with the ascending list of its records. */
  lemma BuiltChildren(adds: seq<Addition>, p: nat)
    requires p < |adds|
    ensures BaseChildren(BuiltBase(adds), p) == Ok(Row(BuiltRecords(adds), p))
  {
    RowSlice(BuiltRecords(adds), p, |adds|);
  }

  lemma RowOnce(records: seq<EsRecord>, p: nat, i: nat)
    ensures multiset(Row(records, p))[i] == if i < |records| && records[i].parentIdx == p then 1 else 0
  {
    RowMembers(records, p, |records|);
    DistinctOnce(Row(records, p), i);
  }

  /** The rows partition the records that have a parent: each is listed once, in its parent's row. */
  lemma {:induction false} RowsPartition(records: seq<EsRecord>, k: nat, i: nat)
    ensures multiset(RowsUpTo(records, k))[i] == if i < |records| && records[i].parentIdx < k then 1 else 0
  {
    if k > 0 {
      RowsPartition(records, k - 1, i);
      RowOnce(records, k - 1, i);
    }
  }

  // ----- A built index is a sound starting point -----

  ghost predicate DistinctRecordNumbers(adds: seq<Addition>) {
    forall i, j :: 0 <= i < j < |adds| ==> adds[i].fileRef.number != adds[j].fileRef.number
  }

  ghost predicate Buildable(adds: seq<Addition>) {
    && |adds| <= PARENT_NONE
    && DistinctRecordNumbers(adds)
    && (forall i :: 0 <= i < |adds| ==> ParentFits(adds[i], |adds|) && !HasTombstoneFlag(adds[i].flags))
  }

  function BuiltView(adds: seq<Addition>): View { View(BuiltBase(adds), EMPTY_DELTA) }

  lemma BuiltPairsDistinct(adds: seq<Addition>)
    requires Buildable(adds)
    ensures DistinctNumbers(BuiltPairs(adds)) && IndicesFit(BuiltPairs(adds))
  {
    forall i | 0 <= i < |adds| ensures BuiltPairs(adds)[i] == RefPair(adds[i].fileRef, i) {
      BuiltRecordAt(adds, i);
    }
  }

  /** The lookup table finds exactly the records that were added. */
  lemma BuiltLookup(adds: seq<Addition>, n: nat)
    requires Buildable(adds)
    ensures match GetNumber(BuiltBase(adds).fileRefMap, n)
            case Some(i) => i < |adds| && adds[i].fileRef.number == n
            case None => forall i :: 0 <= i < |adds| ==> adds[i].fileRef.number != n
  {
    var pairs := BuiltPairs(adds);
    BuiltPairsDistinct(adds);
    FromPairsKeepsMap(pairs);
    if n in PairsMap(pairs) {
      var p := PairsMapSource(pairs, n);
      var i :| 0 <= i < |pairs| && pairs[i] == p;
      BuiltRecordAt(adds, i);
    } else {
      forall i | 0 <= i < |adds| ensures adds[i].fileRef.number != n {
        BuiltRecordAt(adds, i);
        PairsMapAt(pairs, i);
      }
    }
  }

  lemma BuiltBaseOk(adds: seq<Addition>)
    requires Buildable(adds)
    ensures BaseOk(BuiltBase(adds))
  {
    var b := BuiltBase(adds);
    forall i: nat ensures BaseRowOk(b, i) {
      if i < |adds| {
        BuiltRecordAt(adds, i);
        NamesBlobSlice(adds, i);
      }
    }
    forall p: nat ensures CsrRowOk(b, p) {
      if p < |adds| { BuiltChildren(adds, p); }
    }
    forall n: nat ensures BaseRefOk(b, n) {
      BuiltLookup(adds, n);
    }
  }

  /** Records with distinct numbers and parents in range build an index that satisfies the invariant. */
  lemma BuiltViewOk(adds: seq<Addition>)
    requires Buildable(adds)
    ensures Inv(BuiltView(adds))
    ensures forall i: nat :: Live(BuiltView(adds), i) <==> i < |adds|
  {
    var v := BuiltView(adds);
    BuiltBaseOk(adds);
    forall i: nat ensures Live(v, i) <==> i < |adds| {
      assert BaseRowOk(v.base, i);
    }
    forall i: nat ensures RecordOk(v, i) && ParentLive(v, i) {
      if i < |adds| {
        BuiltRecordAt(adds, i);
        BuiltLookup(adds, adds[i].fileRef.number);
        assert BaseRowOk(v.base, i);
      }
    }
    forall n: nat ensures NumberOk(v, n) {
      BuiltLookup(adds, n);
      if Lookup(v, n).Some? { BuiltRecordAt(adds, Lookup(v, n).value); }
    }
  }

  // ----- The tree of a built index -----

  function AddedNode(adds: seq<Addition>, k: nat): Node
    requires k < |adds|
  {
    var a := adds[k];
    Node(a.name, if a.parentIdx < |adds| then Some(adds[a.parentIdx].fileRef.number) else None, HasDirectoryFlag(a.flags))
  }

  function AddedTree(adds: seq<Addition>, k: nat): Tree
    requires k <= |adds|
  {
    if k == 0 then map[] else AddedTree(adds, k - 1)[adds[k - 1].fileRef.number := AddedNode(adds, k - 1)]
  }

  lemma {:induction false} AddedTreeHas(adds: seq<Addition>, k: nat, i: nat)
    requires DistinctRecordNumbers(adds) && i < k <= |adds|
    ensures NodeIn(AddedTree(adds, k), adds[i].fileRef.number) == Some(AddedNode(adds, i))
    decreases k
  {
    if i < k - 1 {
      AddedTreeHas(adds, k - 1, i);
    }
  }

  lemma {:induction false} AddedTreeHasOnly(adds: seq<Addition>, k: nat, n: nat)
    requires k <= |adds| && forall i :: 0 <= i < k ==> adds[i].fileRef.number != n
    ensures n !in AddedTree(adds, k)
  {
    if k > 0 {
      AddedTreeHasOnly(adds, k - 1, n);
    }
  }

  lemma BuiltNode(adds: seq<Addition>, i: nat)
    requires Buildable(adds) && i < |adds|
    ensures NodeIn(Abs(BuiltView(adds)), adds[i].fileRef.number) == Some(AddedNode(adds, i))
  {
    var v := BuiltView(adds);
    BuiltViewOk(adds);
    BuiltRecordAt(adds, i);
    BuiltNames(adds, i);
    AbsAt(v, i);
    if adds[i].parentIdx < |adds| { BuiltRecordAt(adds, adds[i].parentIdx); }
  }

  /** A finished index shows every addition, and nothing else, as a node of its tree. */
  lemma BuiltTree(adds: seq<Addition>)
    requires Buildable(adds)
    ensures Abs(BuiltView(adds)) == AddedTree(adds, |adds|)
  {
    BuiltViewOk(adds);
    forall n: nat ensures NodeIn(Abs(BuiltView(adds)), n) == NodeIn(AddedTree(adds, |adds|), n) {
      if i :| 0 <= i < |adds| && adds[i].fileRef.number == n {
        BuiltNode(adds, i);
        AddedTreeHas(adds, |adds|, i);
      } else {
        AddedTreeHasOnly(adds, |adds|, n);
        AbsHas(BuiltView(adds), n);
        BuiltLookup(adds, n);
      }
    }
    TreesEqual(Abs(BuiltView(adds)), AddedTree(adds, |adds|));
  }
}
