/** A built index fits its cache file: the size limits of the builder keep every column within its field. */
module CacheLimits {
  import opened Basics
  import opened Records
  import opened FileRefMaps
  import opened Bytes
  import opened Overlay
  import opened Refinement
  import opened Builder
  import opened Compaction
  import opened Cache

  // ----- How long a list without repetition can be -----

  /** The child table lists each record at most once. */
  lemma RowsAreShort(records: seq<EsRecord>, k: nat)
    ensures |RowsUpTo(records, k)| <= |records|
    ensures forall i :: i in RowsUpTo(records, k) ==> i < |records|
  {
    var rows := RowsUpTo(records, k);
    forall x: nat ensures Times(rows, x) <= 1 && (x in rows ==> x < |records|) {
      RowsPartition(records, k, x);
    }
    OnceIsDistinct(rows);
    DistinctFits(rows, FirstNumbers(|records|));
  }

  // ----- The lookup table -----

  lemma TablePairSource(ps: seq<RefPair>, m: FileRefMap, k: nat) returns (i: nat)
    requires Valid(m) && PairsMap(Pairs(m)) == PairsMap(ps) && k < |Pairs(m)|
    ensures i < |ps| && ps[i].Number() == Pairs(m)[k].Number() && ps[i].idx == Pairs(m)[k].idx
  {
    var p := Pairs(m)[k];
    GetIsMapLookup(m, 0);
    PairsMapAt(Pairs(m), k);
    var source := PairsMapSource(ps, p.Number());
    i :| 0 <= i < |ps| && ps[i] == source;
  }

  /** Each pair of the table stands for one addition. */
  lemma TablePairIs(adds: seq<Addition>, k: nat)
    requires Buildable(adds) && k < |Pairs(FromPairs(BuiltPairs(adds)))|
    ensures var p := Pairs(FromPairs(BuiltPairs(adds)))[k];
            && p.idx < |adds| && p.Number() == adds[p.idx].fileRef.number
            && (p.fileRef.sequence == 0 || p.fileRef == adds[p.idx].fileRef)
  {
    var ps := BuiltPairs(adds);
    var p := Pairs(FromPairs(ps))[k];
    BuiltPairsDistinct(adds);
    FromPairsKeepsMap(ps);
    var i := TablePairSource(ps, FromPairs(ps), k);
    BuiltRecordAt(adds, i);
    TablePairKeepsRef(ps, p);
    if p in ps {
      var j :| 0 <= j < |ps| && ps[j] == p;
      BuiltRecordAt(adds, j);
    }
  }

  /** Dense tables forget sequence numbers, sorted tables keep them. */
  lemma TablePairKeepsRef(ps: seq<RefPair>, p: RefPair)
    requires DistinctNumbers(ps) && p in Pairs(FromPairs(ps))
    ensures p.fileRef.sequence == 0 || p in ps
  {
    if ps != [] {
      match FromPairs(ps) {
        case Dense(base, slots) => DensePairsShape(base, slots);
        case Sorted(entries) => SortByNumberSorts(ps);
        case Empty =>
      }
    }
  }

  function PairIndices(ps: seq<RefPair>): seq<nat> { seq(|ps|, k requires 0 <= k < |ps| => ps[k].idx) }

  lemma TableIsShort(adds: seq<Addition>)
    requires Buildable(adds)
    ensures |Pairs(FromPairs(BuiltPairs(adds)))| <= |adds|
  {
    var ps := Pairs(FromPairs(BuiltPairs(adds)));
    var indices := PairIndices(ps);
    BuiltPairsDistinct(adds);
    FromPairsKeepsMap(BuiltPairs(adds));
    GetIsMapLookup(FromPairs(BuiltPairs(adds)), 0);
    forall i, j | 0 <= i < j < |indices| ensures indices[i] != indices[j] {
      TablePairIs(adds, i);
      TablePairIs(adds, j);
    }
    forall x | x in indices ensures x in FirstNumbers(|adds|) {
      var k :| 0 <= k < |indices| && indices[k] == x;
      TablePairIs(adds, k);
    }
    DistinctFits(indices, FirstNumbers(|adds|));
  }

  // ----- All columns -----

  /** Text is a list of UTF-8 units. */
  predicate Units(s: string) { forall k :: 0 <= k < |s| ==> s[k] < '\U{100}' }

  /** What an addition carries fits the fields of a row and a name. */
  ghost predicate FieldsInRange(a: Addition) {
    && RefFits(a.fileRef) && a.flags <= U16_MAX && a.rank <= U16_MAX
    && Units(a.name)
  }

  /** Additions that the builder accepts, with values that fit their machine types. */
  ghost predicate Storable(adds: seq<Addition>) {
    Buildable(adds) && SizesFit(adds) && forall k :: 0 <= k < |adds| ==> FieldsInRange(adds[k])
  }

  lemma StorableInit(adds: seq<Addition>, n: nat)
    requires SizesFit(adds) && n <= |adds|
    requires forall k :: 0 <= k < |adds| ==> FieldsInRange(adds[k])
    ensures SizesFit(adds[..n]) && forall k :: 0 <= k < n ==> FieldsInRange(adds[..n][k])
  {
    forall k | 0 <= k < n ensures AddFits(adds[..n], k) {
      assert AddFits(adds, k);
      assert adds[..n][..k] == adds[..k];
    }
  }

  /** The last name may cross the limit of the name blob, but no further. */
  lemma {:induction false} BlobFits(adds: seq<Addition>)
    requires SizesFit(adds) && forall k :: 0 <= k < |adds| ==> FieldsInRange(adds[k])
    ensures |NamesBlob(adds)| <= U32_MAX + U16_MAX
    ensures forall k :: 0 <= k < |NamesBlob(adds)| ==> NamesBlob(adds)[k] < '\U{100}'
  {
    if adds != [] {
      var last := |adds| - 1;
      StorableInit(adds, last);
      BlobFits(adds[..last]);
      assert AddFits(adds, last) && FieldsInRange(adds[last]);
    }
  }

  lemma BuiltRecordFits(adds: seq<Addition>, i: nat)
    requires Storable(adds) && i < |adds|
    ensures RecordFits(BuiltRecords(adds)[i])
  {
    BuiltRecordAt(adds, i);
    assert AddFits(adds, i) && FieldsInRange(adds[i]);
  }

  lemma TableFits(adds: seq<Addition>, k: nat)
    requires Storable(adds) && k < |Pairs(FromPairs(BuiltPairs(adds)))|
    ensures PairFits(Pairs(FromPairs(BuiltPairs(adds)))[k])
  {
    TablePairIs(adds, k);
    assert FieldsInRange(adds[Pairs(FromPairs(BuiltPairs(adds)))[k].idx]);
  }

  lemma BuiltBaseFits(adds: seq<Addition>)
    requires Storable(adds)
    ensures BaseFits(BuiltBase(adds))
  {
    var b := BuiltBase(adds);
    forall k | 0 <= k < |b.records| ensures RecordFits(b.records[k]) {
      BuiltRecordFits(adds, k);
    }
    BlobFits(adds);
    forall k | 0 <= k < |b.childrenOffsets| ensures Small(b.childrenOffsets[k]) {
      RowsPrefix(b.records, k, |adds|);
      RowsAreShort(b.records, k);
    }
    RowsAreShort(b.records, |adds|);
    forall k | 0 <= k < |b.childrenIndices| ensures Small(b.childrenIndices[k]) {
      assert b.childrenIndices[k] in b.childrenIndices;
    }
    forall k | 0 <= k < |Pairs(b.fileRefMap)| ensures PairFits(Pairs(b.fileRefMap)[k]) {
      TableFits(adds, k);
    }
    TableIsShort(adds);
    BuiltPairsDistinct(adds);
    FromPairsKeepsMap(BuiltPairs(adds));
  }

  // ----- The header -----

  lemma {:induction false} LeFits(bytes: seq<Byte>)
    ensures FromLe(bytes) < Pow256(|bytes|)
  {
    if bytes != [] {
      LeFits(bytes[1..]);
    }
  }

  lemma MagicFits()
    ensures Wide(MAGIC)
  {
    Pow256Values();
    LeFits([0x45, 0x5A, 0x53, 0x45, 0x41, 0x52, 0x43, 0x48]);
  }

  lemma EncodedTableLength(m: FileRefMap)
    requires forall k :: 0 <= k < |Pairs(m)| ==> PairFits(Pairs(m)[k])
    ensures |EncodeMap(m)| == 4 + 12 * |Pairs(m)|
  {
    forall k | 0 <= k < |Pairs(m)| ensures |ENCODE_PAIR(Pairs(m)[k])| == 12 {
      PairRoundTrip(Pairs(m)[k]);
    }
    ColumnLength(Pairs(m), ENCODE_PAIR, 12);
    assert |Le(Min(|Pairs(m)|, U32_MAX), 4)| == 4;
  }

  ghost predicate StampFits(volumeSerial: nat, cursor: UsnCursor) {
    Wide(volumeSerial) && Wide(cursor.journalId) && SignedFits(cursor.lastUsn)
  }

  /** Every index that the builder finishes can be written to a cache file without loss. */
  lemma BuiltFileFits(adds: seq<Addition>, volumeSerial: nat, cursor: UsnCursor)
    requires Storable(adds) && StampFits(volumeSerial, cursor)
    ensures FileFits(BuiltBase(adds), volumeSerial, cursor)
  {
    var b := BuiltBase(adds);
    BuiltBaseFits(adds);
    BlobFits(adds);
    RowsAreShort(b.records, |adds|);
    EncodedTableLength(b.fileRefMap);
    MagicFits();
  }

  /** So a built index reads back from its cache file, whatever was added. */
  lemma BuiltCacheRoundTrip(adds: seq<Addition>, volumeSerial: nat, cursor: UsnCursor)
    requires Storable(adds) && StampFits(volumeSerial, cursor)
    ensures WriteTo(BuiltBase(adds), volumeSerial, cursor).Ok?
    ensures var r := ParseCache(WriteTo(BuiltBase(adds), volumeSerial, cursor).value, volumeSerial);
            r.Ok? && r.value.cursor == cursor && SameBase(r.value.base, BuiltBase(adds))
  {
    BuiltFileFits(adds, volumeSerial, cursor);
    CacheRoundTrip(BuiltBase(adds), volumeSerial, cursor, volumeSerial);
  }

  // ----- What a compaction writes -----

  ghost predicate BaseValuesFit(b: Base) {
    && (forall k :: 0 <= k < |b.records| ==> RefFits(b.records[k].fileRef) && b.records[k].flags <= U16_MAX && b.records[k].rank <= U16_MAX)
    && Units(b.names)
  }

  ghost predicate RowValuesFit(rec: InsertedRecord) { RefFits(rec.fileRef) && rec.flags <= U16_MAX && Units(rec.name) }

  /** Every value in the index fits its machine type. */
  ghost predicate ValuesFit(v: View) {
    && BaseValuesFit(v.base)
    && (forall k :: 0 <= k < |v.delta.inserted| ==> RowValuesFit(v.delta.inserted[k]))
    && (forall i :: i in v.delta.renamed ==> Units(v.delta.renamed[i]))
  }

  ghost predicate EventValuesFit(e: UsnEvent) {
    && RefFits(e.fileRef)
    && (e.name.Some? ==> Units(e.name.value))
    && (e.flags.Some? ==> e.flags.value <= U16_MAX)
  }

  lemma CreateKeepsValues(v: View, e: UsnEvent)
    requires ValuesFit(v) && EventValuesFit(e)
    ensures ValuesFit(ApplyCreate(v, e))
  {}

  lemma SetNameKeepsValues(v: View, index: nat, name: string)
    requires ValuesFit(v) && Units(name)
    ensures ValuesFit(SetLogicalName(v, index, name))
  {}

  lemma EventKeepsValues(v: View, e: UsnEvent)
    requires ValuesFit(v) && EventValuesFit(e)
    ensures ValuesFit(ApplyEvent(v, e))
  {
    CreateKeepsValues(v, e);
    if RefLookup(v, e.fileRef).Some? && e.name.Some? {
      SetNameKeepsValues(v, RefLookup(v, e.fileRef).value, e.name.value);
    }
  }

  lemma {:induction false} EventsKeepValues(v: View, events: seq<UsnEvent>)
    requires ValuesFit(v) && forall k :: 0 <= k < |events| ==> EventValuesFit(events[k])
    ensures ValuesFit(ApplyEvents(v, events))
  {
    if events != [] {
      EventsKeepValues(v, events[..|events| - 1]);
      EventKeepsValues(ApplyEvents(v, events[..|events| - 1]), events[|events| - 1]);
    }
  }

  lemma BuiltValuesFit(adds: seq<Addition>)
    requires Storable(adds)
    ensures ValuesFit(BuiltView(adds))
  {
    BlobFits(adds);
    forall k | 0 <= k < |adds|
      ensures RefFits(BuiltRecords(adds)[k].fileRef) && BuiltRecords(adds)[k].flags <= U16_MAX && BuiltRecords(adds)[k].rank <= U16_MAX
    {
      BuiltRecordFits(adds, k);
    }
  }

  lemma NameValuesFit(v: View, i: nat)
    requires StructOk(v) && ValuesFit(v) && LogicalName(v, i).Some?
    ensures Units(LogicalName(v, i).value)
  {
    assert BaseRowOk(v.base, i);
  }

  lemma CompactedFields(v: View, k: nat)
    requires Inv(v) && ValuesFit(v) && k < |LiveList(v)|
    ensures |Additions(Snapshot(v))| == |LiveList(v)| && FieldsInRange(Additions(Snapshot(v))[k])
  {
    var i := LiveList(v)[k];
    assert i in LiveList(v);
    AdditionAt(v, k);
    NamePresent(v, i);
    NameValuesFit(v, i);
    if i >= BaseLen(v) { assert RowValuesFit(v.delta.inserted[i - BaseLen(v)]); }
  }

  /** What a compaction adds to its builder is storable, if the builder takes it. */
  lemma CompactionStorable(v: View)
    requires Inv(v) && ValuesFit(v) && SizesFit(Additions(Snapshot(v)))
    ensures Storable(Additions(Snapshot(v)))
  {
    SnapshotBuildable(v);
    forall k | 0 <= k < |Additions(Snapshot(v))| ensures FieldsInRange(Additions(Snapshot(v))[k]) {
      AdditionsAreLive(v);
      CompactedFields(v, k);
    }
  }

  lemma AdditionsAreLive(v: View)
    ensures |Additions(Snapshot(v))| == |LiveList(v)|
  {
    if |LiveList(v)| > 0 { AdditionAt(v, 0); }
  }

  /** So the cache that follows a compaction reads back as the compacted index. */
  lemma CompactedCacheRoundTrip(v: View, volumeSerial: nat, cursor: UsnCursor)
    requires Inv(v) && ValuesFit(v) && SizesFit(Additions(Snapshot(v))) && StampFits(volumeSerial, cursor)
    ensures ValuesFit(Compact(v)) && WriteTo(Compact(v).base, volumeSerial, cursor).Ok?
    ensures var r := ParseCache(WriteTo(Compact(v).base, volumeSerial, cursor).value, volumeSerial);
            r.Ok? && r.value.cursor == cursor && SameBase(r.value.base, Compact(v).base)
  {
    CompactionStorable(v);
    BuiltValuesFit(Additions(Snapshot(v)));
    BuiltCacheRoundTrip(Additions(Snapshot(v)), volumeSerial, cursor);
  }
}
