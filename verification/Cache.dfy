/**
 The cache file of an index (cache.rs, cache_header.rs): a header, the base
 columns laid end to end, and the lookup table as pairs.
 */
module Cache {
  import opened Basics
  import opened Records
  import opened FileRefMaps
  import opened Bytes
  import opened Overlay

  const HEADER_BYTES: nat := 112
  const RECORD_BYTES: nat := 24
  const CACHE_VERSION: nat := 1

  /** The letters EZSEARCH, read as one little-endian number. */
  const MAGIC: nat := FromLe([0x45, 0x5A, 0x53, 0x45, 0x41, 0x52, 0x43, 0x48])

  // ----- Signed numbers and file references as fields -----

  /** Two's complement. */
  function FromSigned(i: int): nat { i % U64 }

  function ToSigned(n: nat): int { if n < U64 / 2 then n else n - U64 }

  predicate SignedFits(i: int) { -(U64 / 2) <= i < U64 / 2 }

  predicate RefFits(r: FileRef) { r.sequence < 0x1_0000 && r.number < RECORD_NUMBERS }

  lemma RefRoundTrip(r: FileRef)
    requires RefFits(r)
    ensures RefOf(RefValue(r)) == r && RefValue(r) < U64
  {}

  // ----- The header -----

  datatype EsCacheHeader = EsCacheHeader(
    magic: nat, version: nat, headerBytes: nat, recordBytes: nat, volumeSerial: nat, usnJournalId: nat, lastUsn: int,
    recordCount: nat, nameBytes: nat, recordsOffset: nat, namesOffset: nat, childrenOffsetsOffset: nat,
    childrenIndicesOffset: nat, fileRefMapOffset: nat, searchIndexOffset: nat)
  {
    /** First failure first. */
    function Validate(): Option<EsError> {
      if magic != MAGIC then Some(CacheHeader(MagicMismatch))
      else if version != CACHE_VERSION then Some(CacheHeader(VersionMismatch))
      else if headerBytes != HEADER_BYTES then Some(CacheHeader(HeaderSizeMismatch))
      else if recordBytes != RECORD_BYTES then Some(CacheHeader(RecordSizeMismatch))
      else None
    }
  }

  /** Field widths in file order; the second 4-byte field of a pair of them may be padding. */
  const HEADER_WIDTHS: seq<nat> := [8, 4, 4, 4, 4, 8, 8, 8, 4, 4, 8, 8, 8, 8, 8, 8, 8]

  function HeaderValues(h: EsCacheHeader): seq<nat> {
    [h.magic, h.version, h.headerBytes, h.recordBytes, 0, h.volumeSerial, h.usnJournalId, FromSigned(h.lastUsn),
     h.recordCount, 0, h.nameBytes, h.recordsOffset, h.namesOffset, h.childrenOffsetsOffset, h.childrenIndicesOffset,
     h.fileRefMapOffset, h.searchIndexOffset]
  }

  function HeaderOf(v: seq<nat>): EsCacheHeader
    requires |v| == 17
  {
    EsCacheHeader(v[0], v[1], v[2], v[3], v[5], v[6], ToSigned(v[7]), v[8], v[10], v[11], v[12], v[13], v[14], v[15], v[16])
  }

  predicate Small(n: nat) { n <= U32_MAX }

  predicate Wide(n: nat) { n < U64 }

  predicate HeaderFits(h: EsCacheHeader) {
    && Wide(h.magic) && Small(h.version) && Small(h.headerBytes) && Small(h.recordBytes)
    && Wide(h.volumeSerial) && Wide(h.usnJournalId) && SignedFits(h.lastUsn) && Small(h.recordCount)
    && Wide(h.nameBytes) && Wide(h.recordsOffset) && Wide(h.namesOffset) && Wide(h.childrenOffsetsOffset)
    && Wide(h.childrenIndicesOffset) && Wide(h.fileRefMapOffset) && Wide(h.searchIndexOffset)
  }

  function EncodeHeader(h: EsCacheHeader): seq<Byte> { EncodeFields(HeaderValues(h), HEADER_WIDTHS) }

  function DecodeHeader(bytes: seq<Byte>): EsCacheHeader { HeaderOf(DecodeFields(bytes, HEADER_WIDTHS)) }

  lemma SignedRoundTrip(i: int)
    requires SignedFits(i)
    ensures FromSigned(i) < U64 && ToSigned(FromSigned(i)) == i
  {
    if i < 0 { assert i % U64 == i + U64; }
  }

  lemma HeaderFieldsFit(h: EsCacheHeader)
    requires HeaderFits(h)
    ensures FieldsFit(HeaderValues(h), HEADER_WIDTHS)
  {
    Pow256Values();
    SignedRoundTrip(h.lastUsn);
  }

  lemma HeaderOfValues(h: EsCacheHeader)
    requires HeaderFits(h)
    ensures HeaderOf(HeaderValues(h)) == h
  {
    SignedRoundTrip(h.lastUsn);
  }

  lemma HeaderRoundTrip(h: EsCacheHeader)
    requires HeaderFits(h)
    ensures |EncodeHeader(h)| == HEADER_BYTES && DecodeHeader(EncodeHeader(h)) == h
  {
    HeaderFieldsFit(h);
    HeaderFrom(h, HeaderValues(h), HEADER_WIDTHS);
    HeaderWidth();
  }

  lemma HeaderFrom(h: EsCacheHeader, values: seq<nat>, widths: seq<nat>)
    requires HeaderFits(h) && values == HeaderValues(h) && FieldsFit(values, widths)
    ensures |EncodeFields(values, widths)| == TotalWidth(widths)
    ensures HeaderOf(DecodeFields(EncodeFields(values, widths), widths)) == h
  {
    FieldsLength(values, widths);
    FieldsRoundTrip(values, widths);
    HeaderOfValues(h);
  }

  lemma {:induction false} WidthConcat(a: seq<nat>, b: seq<nat>)
    ensures TotalWidth(a + b) == TotalWidth(a) + TotalWidth(b)
    decreases |a|
  {
    if a == [] {
      assert a + b == b;
    } else {
      assert (a + b)[1..] == a[1..] + b;
      WidthConcat(a[1..], b);
    }
  }

  lemma FourWidths(a: nat, b: nat, c: nat, d: nat)
    ensures TotalWidth([a, b, c, d]) == a + b + c + d
  {
    assert [a, b, c, d][1..] == [b, c, d] && [b, c, d][1..] == [c, d] && [c, d][1..] == [d] && [d][1..] == [];
    assert TotalWidth([d]) == d && TotalWidth([c, d]) == c + d;
  }

  lemma HeaderWidth()
    ensures TotalWidth(HEADER_WIDTHS) == HEADER_BYTES
  {
    var a, b, c, d, e := [8, 4, 4, 4], [4, 8, 8, 8], [4, 4, 8, 8], [8, 8, 8, 8], [8];
    FourWidths(8, 4, 4, 4);
    FourWidths(4, 8, 8, 8);
    FourWidths(4, 4, 8, 8);
    FourWidths(8, 8, 8, 8);
    assert HEADER_WIDTHS == a + (b + (c + (d + e)));
    WidthConcat(a, b + (c + (d + e)));
    WidthConcat(b, c + (d + e));
    WidthConcat(c, d + e);
    WidthConcat(d, e);
  }

  // ----- Rows -----

  const RECORD_WIDTHS: seq<nat> := [8, 4, 4, 2, 2, 2, 2]

  function RecordValues(r: EsRecord): seq<nat> {
    [RefValue(r.fileRef), r.nameOffset, r.parentIdx, r.nameLen, r.flags, r.extId, r.rank]
  }

  function RecordOf(v: seq<nat>): EsRecord
    requires |v| == 7
  {
    EsRecord(RefOf(v[0]), v[1], v[2], v[3], v[4], v[5], v[6])
  }

  predicate RecordFits(r: EsRecord) {
    && RefFits(r.fileRef) && Small(r.nameOffset) && Small(r.parentIdx)
    && r.nameLen <= U16_MAX && r.flags <= U16_MAX && r.extId <= U16_MAX && r.rank <= U16_MAX
  }

  const ENCODE_RECORD: EsRecord -> seq<Byte> := (r: EsRecord) => EncodeFields(RecordValues(r), RECORD_WIDTHS)
  const DECODE_RECORD: seq<Byte> -> EsRecord := (b: seq<Byte>) => RecordOf(DecodeFields(b, RECORD_WIDTHS))

  lemma RecordRoundTrip(r: EsRecord)
    requires RecordFits(r)
    ensures RowCodes(ENCODE_RECORD, DECODE_RECORD, RECORD_BYTES, r)
  {
    Pow256Values();
    RefRoundTrip(r.fileRef);
    FieldsRoundTrip(RecordValues(r), RECORD_WIDTHS);
    FieldsLength(RecordValues(r), RECORD_WIDTHS);
    RecordWidth();
  }

  lemma RecordWidth()
    ensures TotalWidth(RECORD_WIDTHS) == RECORD_BYTES
  {
    assert RECORD_WIDTHS[1..] == [4, 4, 2, 2, 2, 2];
    assert [4, 4, 2, 2, 2, 2][1..] == [4, 2, 2, 2, 2];
    assert [4, 2, 2, 2, 2][1..] == [2, 2, 2, 2];
  }

  const ENCODE_U32: nat -> seq<Byte> := (n: nat) => Le(n, 4)
  const DECODE_U32: seq<Byte> -> nat := (b: seq<Byte>) => FromLe(b)

  const ENCODE_CHAR: char -> seq<Byte> := (c: char) => Le(c as nat, 1)
  const DECODE_CHAR: seq<Byte> -> char := (b: seq<Byte>) => (FromLe(b) % 256) as char

  const ENCODE_PAIR: RefPair -> seq<Byte> := (p: RefPair) => EncodeFields([RefValue(p.fileRef), p.idx], [8, 4])
  const DECODE_PAIR: seq<Byte> -> RefPair := (b: seq<Byte>) => PairOf(DecodeFields(b, [8, 4]))

  function PairOf(v: seq<nat>): RefPair
    requires |v| == 2
  {
    RefPair(RefOf(v[0]), v[1])
  }

  lemma PairRoundTrip(p: RefPair)
    requires RefFits(p.fileRef) && Small(p.idx)
    ensures RowCodes(ENCODE_PAIR, DECODE_PAIR, 12, p)
  {
    var values, widths := [RefValue(p.fileRef), p.idx], [8, 4];
    Pow256Values();
    RefRoundTrip(p.fileRef);
    FieldsRoundTrip(values, widths);
    FieldsLength(values, widths);
    assert widths[1..] == [4];
  }

  lemma U32RoundTrip(n: nat)
    requires Small(n)
    ensures RowCodes(ENCODE_U32, DECODE_U32, 4, n)
  {
    Pow256Values();
    LeRoundTrip(n, 4);
  }

  lemma CharRoundTrip(c: char)
    requires c < '\U{100}'
    ensures RowCodes(ENCODE_CHAR, DECODE_CHAR, 1, c)
  {
    assert Pow256(1) == 256;
    LeRoundTrip(c as nat, 1);
  }

  // ----- Sections -----

  function HeaderFor(b: Base, volumeSerial: nat, cursor: UsnCursor): EsCacheHeader {
    var namesOffset := HEADER_BYTES + RECORD_BYTES * |b.records|;
    var childrenOffsetsOffset := namesOffset + |b.names|;
    var childrenIndicesOffset := childrenOffsetsOffset + 4 * (|b.records| + 1);
    var fileRefMapOffset := childrenIndicesOffset + 4 * |b.childrenIndices|;
    EsCacheHeader(
      MAGIC, CACHE_VERSION, HEADER_BYTES, RECORD_BYTES, volumeSerial, cursor.journalId, cursor.lastUsn,
      |b.records|, |b.names|, HEADER_BYTES, namesOffset, childrenOffsetsOffset, childrenIndicesOffset,
      fileRefMapOffset, fileRefMapOffset + |EncodeMap(b.fileRefMap)|)
  }

  function EncodeMap(m: FileRefMap): seq<Byte> {
    var pairs := Pairs(m);
    Le(Min(|pairs|, U32_MAX), 4) + PairRows(pairs)
  }

  function PairRows(pairs: seq<RefPair>): seq<Byte> { EncodeAll(pairs, ENCODE_PAIR) }

  function DecodeMap(bytes: seq<Byte>): Result<FileRefMap, EsError> {
    if |bytes| < 4 then Ok(Empty) else DecodeRows(FromLe(bytes[..4]), bytes[4..])
  }

  function DecodeRows(count: nat, rows: seq<Byte>): Result<FileRefMap, EsError> {
    if |rows| < 12 * count then Err(CacheHeader(FileRefMapTruncated))
    else Ok(FromPairs(DecodeAll(rows[..12 * count], 12, DECODE_PAIR)))
  }

  function EncodeRecords(b: Base): seq<Byte> { EncodeAll(b.records, ENCODE_RECORD) }
  function EncodeNames(b: Base): seq<Byte> { EncodeAll(b.names, ENCODE_CHAR) }
  function EncodeOffsets(b: Base): seq<Byte> { EncodeAll(b.childrenOffsets, ENCODE_U32) }
  function EncodeIndices(b: Base): seq<Byte> { EncodeAll(b.childrenIndices, ENCODE_U32) }

  /** The file: base columns only, whatever the overlay holds. */
  function WriteTo(b: Base, volumeSerial: nat, cursor: UsnCursor): Result<seq<Byte>, EsError> {
    if |b.records| > U32_MAX then Err(CacheHeader(RecordCountOverflow))
    else Ok(EncodeHeader(HeaderFor(b, volumeSerial, cursor)) + EncodeRecords(b) + EncodeNames(b) + EncodeOffsets(b)
            + EncodeIndices(b) + EncodeMap(b.fileRefMap))
  }

  /** What a cache file holds: the base columns and the journal position they stand for. */
  datatype CachedIndex = CachedIndex(base: Base, cursor: UsnCursor)

  function ParseCache(data: seq<Byte>, volumeSerial: nat): Result<CachedIndex, EsError> {
    if |data| < HEADER_BYTES then Err(CacheHeader(FileTooSmall))
    else ParseBehind(DecodeHeader(data[..HEADER_BYTES]), data, volumeSerial)
  }

  function ParseBehind(h: EsCacheHeader, data: seq<Byte>, volumeSerial: nat): Result<CachedIndex, EsError> {
    if h.Validate().Some? then Err(h.Validate().value)
    else if h.volumeSerial != volumeSerial then Err(CacheHeader(VolumeSerialMismatch))
    else ParseSections(data, h)
  }

  datatype Sections = Sections(records: seq<Byte>, names: seq<Byte>, offsets: seq<Byte>, indices: seq<Byte>, table: seq<Byte>)

  function ParseSections(data: seq<Byte>, h: EsCacheHeader): Result<CachedIndex, EsError> {
    match CutSections(data, h)
    case Err(e) => Err(e)
    case Ok(cut) =>
      match DecodeMap(cut.table)
      case Err(e) => Err(e)
      case Ok(m) => Ok(CachedIndex(Assemble(cut, m), UsnCursor(h.usnJournalId, h.lastUsn)))
  }

  /** Cut out each section where the header says it is; the first that does not fit is an error. */
  function CutSections(data: seq<Byte>, h: EsCacheHeader): Result<Sections, EsError> {
    var records := Slice(data, h.recordsOffset, h.recordsOffset + RECORD_BYTES * h.recordCount);
    var names := Slice(data, h.namesOffset, h.namesOffset + h.nameBytes);
    var offsets := Slice(data, h.childrenOffsetsOffset, h.childrenOffsetsOffset + 4 * (h.recordCount + 1));
    var indices := Slice(data, h.childrenIndicesOffset, h.fileRefMapOffset);
    var table := Slice(data, h.fileRefMapOffset, h.searchIndexOffset);
    if records.None? then Err(CacheHeader(RecordsOutOfBounds))
    else if names.None? then Err(CacheHeader(NamesOutOfBounds))
    else if offsets.None? then Err(CacheHeader(ChildrenOffsetsOutOfBounds))
    else if h.fileRefMapOffset < h.childrenIndicesOffset then Err(CacheHeader(ChildrenIndicesInverted))
    else if indices.None? then Err(CacheHeader(ChildrenIndicesOutOfBounds))
    else if h.searchIndexOffset < h.fileRefMapOffset then Err(CacheHeader(FileRefMapInverted))
    else if table.None? then Err(CacheHeader(FileRefMapOutOfBounds))
    else Ok(Sections(records.value, names.value, offsets.value, indices.value, table.value))
  }

  function Assemble(cut: Sections, m: FileRefMap): Base {
    Base(DecodeAll(cut.records, RECORD_BYTES, DECODE_RECORD), DecodeAll(cut.names, 1, DECODE_CHAR),
         DecodeAll(cut.offsets, 4, DECODE_U32), DecodeAll(cut.indices, 4, DECODE_U32), m)
  }

  // ----- Well-formed indexes -----

  ghost predicate PairFits(p: RefPair) { RefFits(p.fileRef) && Small(p.idx) }

  /** All columns fit their fields. */
  ghost predicate BaseFits(b: Base) {
    && |b.childrenOffsets| == |b.records| + 1 && |b.records| <= U32_MAX
    && (forall k :: 0 <= k < |b.records| ==> RecordFits(b.records[k]))
    && (forall k :: 0 <= k < |b.names| ==> b.names[k] < '\U{100}')
    && (forall k :: 0 <= k < |b.childrenOffsets| ==> Small(b.childrenOffsets[k]))
    && (forall k :: 0 <= k < |b.childrenIndices| ==> Small(b.childrenIndices[k]))
    && (forall k :: 0 <= k < |Pairs(b.fileRefMap)| ==> PairFits(Pairs(b.fileRefMap)[k]))
    && |Pairs(b.fileRefMap)| <= U32_MAX && Valid(b.fileRefMap)
  }

  ghost predicate FileFits(b: Base, volumeSerial: nat, cursor: UsnCursor) {
    BaseFits(b) && HeaderFits(HeaderFor(b, volumeSerial, cursor))
  }

  /** The sections tile the file: each begins where the one before it ends. */
  lemma SectionsTile(b: Base, volumeSerial: nat, cursor: UsnCursor)
    requires FileFits(b, volumeSerial, cursor)
    ensures var h := HeaderFor(b, volumeSerial, cursor);
            && h.recordsOffset == |EncodeHeader(h)|
            && h.namesOffset == h.recordsOffset + |EncodeRecords(b)|
            && h.childrenOffsetsOffset == h.namesOffset + |EncodeNames(b)|
            && h.childrenIndicesOffset == h.childrenOffsetsOffset + |EncodeOffsets(b)|
            && h.fileRefMapOffset == h.childrenIndicesOffset + |EncodeIndices(b)|
            && h.searchIndexOffset == h.fileRefMapOffset + |EncodeMap(b.fileRefMap)|
  {
    HeaderRoundTrip(HeaderFor(b, volumeSerial, cursor));
    SectionLengths(b);
  }

  lemma SectionLengths(b: Base)
    requires BaseFits(b)
    ensures |EncodeRecords(b)| == RECORD_BYTES * |b.records|
    ensures |EncodeNames(b)| == |b.names|
    ensures |EncodeOffsets(b)| == 4 * (|b.records| + 1)
    ensures |EncodeIndices(b)| == 4 * |b.childrenIndices|
  {
    forall k | 0 <= k < |b.records| ensures |ENCODE_RECORD(b.records[k])| == RECORD_BYTES {
      RecordRoundTrip(b.records[k]);
    }
    ColumnLength(b.records, ENCODE_RECORD, RECORD_BYTES);
    ColumnLength(b.names, ENCODE_CHAR, 1);
    ColumnLength(b.childrenOffsets, ENCODE_U32, 4);
    ColumnLength(b.childrenIndices, ENCODE_U32, 4);
  }

  lemma RecordColumn(b: Base)
    requires BaseFits(b)
    ensures DecodeAll(EncodeRecords(b), RECORD_BYTES, DECODE_RECORD) == b.records
  {
    forall k | 0 <= k < |b.records| ensures RowCodes(ENCODE_RECORD, DECODE_RECORD, RECORD_BYTES, b.records[k]) {
      RecordRoundTrip(b.records[k]);
    }
    ColumnRoundTrip(b.records, ENCODE_RECORD, DECODE_RECORD, RECORD_BYTES);
  }

  lemma NameColumn(b: Base)
    requires BaseFits(b)
    ensures DecodeAll(EncodeNames(b), 1, DECODE_CHAR) == b.names
  {
    forall k | 0 <= k < |b.names| ensures RowCodes(ENCODE_CHAR, DECODE_CHAR, 1, b.names[k]) {
      CharRoundTrip(b.names[k]);
    }
    ColumnRoundTrip(b.names, ENCODE_CHAR, DECODE_CHAR, 1);
  }

  lemma U32Column(column: seq<nat>)
    requires forall k :: 0 <= k < |column| ==> Small(column[k])
    ensures DecodeAll(EncodeAll(column, ENCODE_U32), 4, DECODE_U32) == column
  {
    forall k | 0 <= k < |column| ensures RowCodes(ENCODE_U32, DECODE_U32, 4, column[k]) {
      U32RoundTrip(column[k]);
    }
    ColumnRoundTrip(column, ENCODE_U32, DECODE_U32, 4);
  }

  lemma DecodedTable(pairs: seq<RefPair>, rows: seq<Byte>)
    requires |pairs| <= U32_MAX && |rows| == 12 * |pairs| && DecodeAll(rows, 12, DECODE_PAIR) == pairs
    ensures DecodeMap(Le(|pairs|, 4) + rows) == Ok(FromPairs(pairs))
  {
    var bytes := Le(|pairs|, 4) + rows;
    Pow256Values();
    LeRoundTrip(|pairs|, 4);
    assert bytes[..4] == Le(|pairs|, 4) && bytes[4..] == rows;
    assert rows[..12 * |pairs|] == rows;
  }

  /** The lookup table comes back as the table of its own pairs. */
  lemma MapRoundTrip(b: Base)
    requires BaseFits(b)
    ensures DecodeMap(EncodeMap(b.fileRefMap)) == Ok(FromPairs(Pairs(b.fileRefMap)))
  {
    var pairs := Pairs(b.fileRefMap);
    forall k | 0 <= k < |pairs| ensures RowCodes(ENCODE_PAIR, DECODE_PAIR, 12, pairs[k]) {
      assert PairFits(pairs[k]);
      PairRoundTrip(pairs[k]);
    }
    ColumnLength(pairs, ENCODE_PAIR, 12);
    ColumnRoundTrip(pairs, ENCODE_PAIR, DECODE_PAIR, 12);
    DecodedTable(pairs, EncodeAll(pairs, ENCODE_PAIR));
  }

  // ----- The round trip -----

  /** Two bases with the same columns and the same lookups. */
  ghost predicate SameBase(a: Base, b: Base) {
    && a.records == b.records && a.names == b.names
    && a.childrenOffsets == b.childrenOffsets && a.childrenIndices == b.childrenIndices
    && (forall n: nat :: SameLookup(a, b, n))
  }

  ghost predicate SameLookup(a: Base, b: Base, n: nat) { GetNumber(a.fileRefMap, n) == GetNumber(b.fileRefMap, n) }

  /** The sections of a file, as they were written. */
  function Written(b: Base): Sections {
    Sections(EncodeRecords(b), EncodeNames(b), EncodeOffsets(b), EncodeIndices(b), EncodeMap(b.fileRefMap))
  }

  /** Cutting gives back sections that lie where the header says. */
  lemma CutIs(data: seq<Byte>, h: EsCacheHeader, cut: Sections)
    requires Slice(data, h.recordsOffset, h.recordsOffset + RECORD_BYTES * h.recordCount) == Some(cut.records)
    requires Slice(data, h.namesOffset, h.namesOffset + h.nameBytes) == Some(cut.names)
    requires Slice(data, h.childrenOffsetsOffset, h.childrenOffsetsOffset + 4 * (h.recordCount + 1)) == Some(cut.offsets)
    requires Slice(data, h.childrenIndicesOffset, h.fileRefMapOffset) == Some(cut.indices)
    requires Slice(data, h.fileRefMapOffset, h.searchIndexOffset) == Some(cut.table)
    ensures CutSections(data, h) == Ok(cut)
  {}

  /** The base that a written cache holds. */
  function Reloaded(b: Base): Base { b.(fileRefMap := FromPairs(Pairs(b.fileRefMap))) }

  lemma ColumnsComeBack(b: Base)
    requires BaseFits(b)
    ensures Assemble(Written(b), FromPairs(Pairs(b.fileRefMap))) == Reloaded(b)
  {
    RecordColumn(b);
    NameColumn(b);
    U32Column(b.childrenOffsets);
    U32Column(b.childrenIndices);
  }

  /** Sections laid end to end behind a header are cut where the header says. */
  lemma LaidOutCut(h: EsCacheHeader, head: seq<Byte>, cut: Sections, data: seq<Byte>)
    requires data == head + cut.records + cut.names + cut.offsets + cut.indices + cut.table
    requires h.recordsOffset == |head| && |cut.records| == RECORD_BYTES * h.recordCount
    requires h.namesOffset == h.recordsOffset + |cut.records| && |cut.names| == h.nameBytes
    requires h.childrenOffsetsOffset == h.namesOffset + |cut.names| && |cut.offsets| == 4 * (h.recordCount + 1)
    requires h.childrenIndicesOffset == h.childrenOffsetsOffset + |cut.offsets|
    requires h.fileRefMapOffset == h.childrenIndicesOffset + |cut.indices|
    requires h.searchIndexOffset == h.fileRefMapOffset + |cut.table|
    ensures Slice(data, 0, |head|) == Some(head) && CutSections(data, h) == Ok(cut)
  {
    SixSections(head, cut.records, cut.names, cut.offsets, cut.indices, cut.table, data);
    CutIs(data, h, cut);
  }

  lemma SectionsCut(b: Base, volumeSerial: nat, cursor: UsnCursor, data: seq<Byte>)
    requires FileFits(b, volumeSerial, cursor) && WriteTo(b, volumeSerial, cursor) == Ok(data)
    ensures Slice(data, 0, HEADER_BYTES) == Some(EncodeHeader(HeaderFor(b, volumeSerial, cursor)))
    ensures CutSections(data, HeaderFor(b, volumeSerial, cursor)) == Ok(Written(b))
  {
    var h := HeaderFor(b, volumeSerial, cursor);
    SectionsTile(b, volumeSerial, cursor);
    SectionLengths(b);
    LaidOutCut(h, EncodeHeader(h), Written(b), data);
  }

  lemma SectionsParse(b: Base, volumeSerial: nat, cursor: UsnCursor, data: seq<Byte>)
    requires FileFits(b, volumeSerial, cursor) && CutSections(data, HeaderFor(b, volumeSerial, cursor)) == Ok(Written(b))
    ensures ParseSections(data, HeaderFor(b, volumeSerial, cursor)) == Ok(CachedIndex(Reloaded(b), cursor))
  {
    MapRoundTrip(b);
    ColumnsComeBack(b);
  }

  lemma ParseAfterHeader(data: seq<Byte>, h: EsCacheHeader, asked: nat)
    requires Slice(data, 0, HEADER_BYTES) == Some(EncodeHeader(h)) && HeaderFits(h)
    ensures ParseCache(data, asked) == ParseBehind(h, data, asked)
  {
    HeaderRoundTrip(h);
    assert data[..HEADER_BYTES] == data[0..HEADER_BYTES] == EncodeHeader(h);
  }

  lemma ReloadedIsSame(b: Base)
    requires Valid(b.fileRefMap)
    ensures SameBase(Reloaded(b), b)
  {
    forall n: nat ensures SameLookup(Reloaded(b), b, n) {
      RebuildKeepsLookups(b.fileRefMap, n);
    }
  }

  /** Reading a written cache gives back the columns, the journal position and every lookup. */
  lemma CacheRoundTrip(b: Base, volumeSerial: nat, cursor: UsnCursor, asked: nat)
    requires FileFits(b, volumeSerial, cursor)
    ensures WriteTo(b, volumeSerial, cursor).Ok?
    ensures var r := ParseCache(WriteTo(b, volumeSerial, cursor).value, asked);
            if asked == volumeSerial then r.Ok? && r.value.cursor == cursor && SameBase(r.value.base, b)
            else r == Err(CacheHeader(VolumeSerialMismatch))
  {
    var data := WriteTo(b, volumeSerial, cursor).value;
    SectionsCut(b, volumeSerial, cursor, data);
    SectionsParse(b, volumeSerial, cursor, data);
    ParseAfterHeader(data, HeaderFor(b, volumeSerial, cursor), asked);
    ReloadedIsSame(b);
  }

  // ----- Writing and reading in steps -----

  method EncodeFileRefMap(m: FileRefMap) returns (out: seq<Byte>)
    ensures out == EncodeMap(m)
  {
    var pairs, rows: seq<Byte> := Pairs(m), [];
    for k := 0 to |pairs|
      invariant rows == PairRows(pairs[..k])
    {
      PairRowsStep(pairs, k);
      rows := rows + (Le(RefValue(pairs[k].fileRef), 8) + Le(pairs[k].idx, 4));
    }
    assert pairs[..|pairs|] == pairs;
    out := Le(Min(|pairs|, U32_MAX), 4) + rows;
  }

  lemma PairRowsStep(pairs: seq<RefPair>, k: nat)
    requires k < |pairs|
    ensures PairRows(pairs[..k + 1]) ==
            PairRows(pairs[..k]) + (Le(RefValue(pairs[k].fileRef), 8) + Le(pairs[k].idx, 4))
  {
    assert pairs[..k + 1][..k] == pairs[..k];
    PairBytes(pairs[k]);
  }

  lemma PairBytes(p: RefPair)
    ensures ENCODE_PAIR(p) == Le(RefValue(p.fileRef), 8) + Le(p.idx, 4)
  {
    var values, widths := [RefValue(p.fileRef), p.idx], [8, 4];
    assert values[1..] == [p.idx] && widths[1..] == [4];
    assert [p.idx][1..] == [] && [4][1..] == [];
    assert EncodeFields([p.idx], [4]) == Le(p.idx, 4) + [];
  }

  method DecodeFileRefMap(data: seq<Byte>) returns (m: Result<FileRefMap, EsError>)
    ensures m == DecodeMap(data)
  {
    if |data| < 4 { return Ok(Empty); }
    var count := FromLe(data[..4]);
    var rows := data[4..];
    if |rows| < 12 * count { return Err(CacheHeader(FileRefMapTruncated)); }
    var pairs := CollectRows(rows[..12 * count], 12, DECODE_PAIR);
    var table := BuildFromPairs(pairs);
    return Ok(table);
  }

  /** Append header, columns and lookup table to the file, in this order. */
  method WriteCache(b: Base, volumeSerial: nat, cursor: UsnCursor) returns (out: Result<seq<Byte>, EsError>)
    ensures out == WriteTo(b, volumeSerial, cursor)
  {
    if |b.records| > U32_MAX { return Err(CacheHeader(RecordCountOverflow)); }
    var bytes := EncodeHeader(HeaderFor(b, volumeSerial, cursor));
    bytes := bytes + EncodeRecords(b);
    bytes := bytes + EncodeNames(b);
    bytes := bytes + EncodeOffsets(b);
    bytes := bytes + EncodeIndices(b);
    var table := EncodeFileRefMap(b.fileRefMap);
    return Ok(bytes + table);
  }

  method ReadSections(data: seq<Byte>, h: EsCacheHeader) returns (r: Result<CachedIndex, EsError>)
    ensures r == ParseSections(data, h)
  {
    var cut := CutSections(data, h);
    if cut.Err? { return Err(cut.error); }
    var records := CollectRows(cut.value.records, RECORD_BYTES, DECODE_RECORD);
    var names := CollectRows(cut.value.names, 1, DECODE_CHAR);
    var offsets := CollectRows(cut.value.offsets, 4, DECODE_U32);
    var indices := CollectRows(cut.value.indices, 4, DECODE_U32);
    var m := DecodeFileRefMap(cut.value.table);
    if m.Err? { return Err(m.error); }
    return Ok(CachedIndex(Base(records, names, offsets, indices, m.value), UsnCursor(h.usnJournalId, h.lastUsn)));
  }
}
