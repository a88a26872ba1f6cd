/**
 Where everything stands in a cache file: the byte offsets of the header fields, of
 the fields of a row, and of the rows of each column.
 */
module CacheLayout {
  import opened Basics
  import opened Records
  import opened FileRefMaps
  import opened Bytes
  import opened Overlay
  import opened Cache

  /** Byte `i` of a number, counted from the lowest. */
  function ByteOf(n: nat, i: nat): Byte { if i == 0 then n % 256 else ByteOf(n / 256, i - 1) }

  /** The number stands at this offset, lowest byte first. */
  ghost predicate StandsAt(bytes: seq<Byte>, at: nat, width: nat, n: nat) {
    at + width <= |bytes| && forall i :: 0 <= i < width ==> bytes[at + i] == ByteOf(n, i)
  }

  lemma {:induction false} LeByte(n: nat, k: nat, i: nat)
    requires i < k
    ensures Le(n, k)[i] == ByteOf(n, i)
  {
    if i > 0 {
      LeByte(n / 256, k - 1, i - 1);
    }
  }

  lemma LeStands(n: nat, k: nat)
    ensures StandsAt(Le(n, k), 0, k, n)
  {
    forall i | 0 <= i < k ensures Le(n, k)[0 + i] == ByteOf(n, i) {
      LeByte(n, k, i);
    }
  }

  lemma StandsInside(before: seq<Byte>, bytes: seq<Byte>, after: seq<Byte>, at: nat, width: nat, n: nat)
    requires StandsAt(bytes, at, width, n)
    ensures StandsAt(before + bytes + after, |before| + at, width, n)
  {
    var all := before + bytes + after;
    forall i | 0 <= i < width ensures all[|before| + at + i] == ByteOf(n, i) {
      assert all[|before| + at + i] == bytes[at + i];
    }
  }

  /** Each field stands where the widths before it add up to. */
  lemma {:induction false} FieldStands(values: seq<nat>, widths: seq<nat>, k: nat)
    requires |values| == |widths| && k < |values|
    ensures StandsAt(EncodeFields(values, widths), TotalWidth(widths[..k]), widths[k], values[k])
    decreases k
  {
    var first, rest := Le(values[0], widths[0]), EncodeFields(values[1..], widths[1..]);
    if k == 0 {
      LeStands(values[0], widths[0]);
      StandsInside([], first, rest, 0, widths[0], values[0]);
      assert [] + first + rest == first + rest;
    } else {
      FieldStands(values[1..], widths[1..], k - 1);
      StandsInside(first, rest, [], TotalWidth(widths[1..][..k - 1]), widths[k], values[k]);
      assert first + rest + [] == first + rest;
      assert widths[..k][1..] == widths[1..][..k - 1];
    }
  }

  // ----- The header -----

  lemma WidthsUpTo(k: nat)
    requires k < |HEADER_WIDTHS|
    ensures TotalWidth(HEADER_WIDTHS[..k]) ==
            [0, 8, 12, 16, 20, 24, 32, 40, 48, 52, 56, 64, 72, 80, 88, 96, 104][k]
  {
    if k > 0 {
      WidthsUpTo(k - 1);
      WidthConcat(HEADER_WIDTHS[..k - 1], [HEADER_WIDTHS[k - 1]]);
      assert HEADER_WIDTHS[..k] == HEADER_WIDTHS[..k - 1] + [HEADER_WIDTHS[k - 1]];
      assert TotalWidth([HEADER_WIDTHS[k - 1]]) == HEADER_WIDTHS[k - 1];
    }
  }

  lemma HeaderFieldStands(h: EsCacheHeader, k: nat)
    requires k < |HEADER_WIDTHS|
    ensures StandsAt(EncodeHeader(h), [0, 8, 12, 16, 20, 24, 32, 40, 48, 52, 56, 64, 72, 80, 88, 96, 104][k],
                     HEADER_WIDTHS[k], HeaderValues(h)[k])
  {
    FieldStands(HeaderValues(h), HEADER_WIDTHS, k);
    WidthsUpTo(k);
  }

  /** The first half of the header: what the file is and which volume and journal position it is for. */
  lemma HeaderBegins(h: EsCacheHeader)
    ensures var bytes := EncodeHeader(h);
            && StandsAt(bytes, 0, 8, h.magic) && StandsAt(bytes, 8, 4, h.version) && StandsAt(bytes, 12, 4, h.headerBytes)
            && StandsAt(bytes, 16, 4, h.recordBytes) && StandsAt(bytes, 24, 8, h.volumeSerial)
            && StandsAt(bytes, 32, 8, h.usnJournalId)
            && StandsAt(bytes, 40, 8, if h.lastUsn >= 0 then h.lastUsn % U64 else (h.lastUsn + U64) % U64)
            && StandsAt(bytes, 48, 4, h.recordCount)
  {
    HeaderFieldStands(h, 0);
    HeaderFieldStands(h, 1);
    HeaderFieldStands(h, 2);
    HeaderFieldStands(h, 3);
    HeaderFieldStands(h, 5);
    HeaderFieldStands(h, 6);
    HeaderFieldStands(h, 7);
    HeaderFieldStands(h, 8);
  }

  /** The second half: where the columns are. */
  lemma HeaderPoints(h: EsCacheHeader)
    ensures var bytes := EncodeHeader(h);
            && StandsAt(bytes, 56, 8, h.nameBytes) && StandsAt(bytes, 64, 8, h.recordsOffset)
            && StandsAt(bytes, 72, 8, h.namesOffset) && StandsAt(bytes, 80, 8, h.childrenOffsetsOffset)
            && StandsAt(bytes, 88, 8, h.childrenIndicesOffset) && StandsAt(bytes, 96, 8, h.fileRefMapOffset)
            && StandsAt(bytes, 104, 8, h.searchIndexOffset)
  {
    HeaderFieldStands(h, 10);
    HeaderFieldStands(h, 11);
    HeaderFieldStands(h, 12);
    HeaderFieldStands(h, 13);
    HeaderFieldStands(h, 14);
    HeaderFieldStands(h, 15);
    HeaderFieldStands(h, 16);
  }

  /** A cache file begins with the letters EZSEARCH. */
  lemma BeginsWithMagic(h: EsCacheHeader)
    requires h.magic == MAGIC
    ensures |EncodeHeader(h)| >= 8
    ensures EncodeHeader(h)[..8] == ['E' as Byte, 'Z' as Byte, 'S' as Byte, 'E' as Byte, 'A' as Byte, 'R' as Byte, 'C' as Byte, 'H' as Byte]
  {
    HeaderFieldStands(h, 0);
    MagicBytes();
    var bytes := EncodeHeader(h);
    forall i | 0 <= i < 8 ensures bytes[i] == ByteOf(MAGIC, i) {
      assert bytes[0 + i] == ByteOf(h.magic, i);
    }
  }

  lemma {:induction false} BytesOfNumber(bytes: seq<Byte>, i: nat)
    requires i < |bytes|
    ensures ByteOf(FromLe(bytes), i) == bytes[i]
    decreases i
  {
    if i > 0 {
      BytesOfNumber(bytes[1..], i - 1);
    }
  }

  lemma MagicBytes()
    ensures forall i :: 0 <= i < 8 ==> ByteOf(MAGIC, i) == [0x45, 0x5A, 0x53, 0x45, 0x41, 0x52, 0x43, 0x48][i]
  {
    forall i | 0 <= i < 8 ensures ByteOf(MAGIC, i) == [0x45, 0x5A, 0x53, 0x45, 0x41, 0x52, 0x43, 0x48][i] {
      BytesOfNumber([0x45, 0x5A, 0x53, 0x45, 0x41, 0x52, 0x43, 0x48], i);
    }
  }

  // ----- Rows -----

  lemma RowWidths(k: nat)
    requires k < |RECORD_WIDTHS|
    ensures TotalWidth(RECORD_WIDTHS[..k]) == [0, 8, 12, 16, 18, 20, 22][k]
  {
    if k > 0 {
      RowWidths(k - 1);
      WidthConcat(RECORD_WIDTHS[..k - 1], [RECORD_WIDTHS[k - 1]]);
      assert RECORD_WIDTHS[..k] == RECORD_WIDTHS[..k - 1] + [RECORD_WIDTHS[k - 1]];
      assert TotalWidth([RECORD_WIDTHS[k - 1]]) == RECORD_WIDTHS[k - 1];
    }
  }

  lemma RowFieldStands(r: EsRecord, k: nat)
    requires k < |RECORD_WIDTHS|
    ensures StandsAt(ENCODE_RECORD(r), [0, 8, 12, 16, 18, 20, 22][k], RECORD_WIDTHS[k], RecordValues(r)[k])
  {
    FieldStands(RecordValues(r), RECORD_WIDTHS, k);
    RowWidths(k);
  }

  /** The fields of a row at `at`; the record number takes the low 48 bits of the reference. */
  ghost predicate RowAt(bytes: seq<Byte>, at: nat, r: EsRecord) {
    && StandsAt(bytes, at, 8, r.fileRef.sequence * 0x1_0000_0000_0000 + r.fileRef.number)
    && StandsAt(bytes, at + 8, 4, r.nameOffset) && StandsAt(bytes, at + 12, 4, r.parentIdx)
    && StandsAt(bytes, at + 16, 2, r.nameLen) && StandsAt(bytes, at + 18, 2, r.flags)
    && StandsAt(bytes, at + 20, 2, r.extId) && StandsAt(bytes, at + 22, 2, r.rank)
  }

  lemma RowBegins(r: EsRecord)
    ensures RowAt(ENCODE_RECORD(r), 0, r)
  {
    RowFieldStands(r, 0);
    RowFieldStands(r, 1);
    RowFieldStands(r, 2);
    RowFieldStands(r, 3);
    RowFieldStands(r, 4);
    RowFieldStands(r, 5);
    RowFieldStands(r, 6);
  }

  lemma RowInside(before: seq<Byte>, bytes: seq<Byte>, after: seq<Byte>, at: nat, r: EsRecord)
    requires RowAt(bytes, at, r)
    ensures RowAt(before + bytes + after, |before| + at, r)
  {
    StandsInside(before, bytes, after, at, 8, r.fileRef.sequence * 0x1_0000_0000_0000 + r.fileRef.number);
    StandsInside(before, bytes, after, at + 8, 4, r.nameOffset);
    StandsInside(before, bytes, after, at + 12, 4, r.parentIdx);
    StandsInside(before, bytes, after, at + 16, 2, r.nameLen);
    StandsInside(before, bytes, after, at + 18, 2, r.flags);
    StandsInside(before, bytes, after, at + 20, 2, r.extId);
    StandsInside(before, bytes, after, at + 22, 2, r.rank);
  }

  /** A row of a column stands behind the rows before it. */
  lemma {:induction false} RowOfColumn<T>(items: seq<T>, encode: T -> seq<Byte>, size: nat, k: nat) returns (before: seq<Byte>, after: seq<Byte>)
    requires k < |items| && forall j :: 0 <= j < |items| ==> |encode(items[j])| == size
    ensures EncodeAll(items, encode) == before + encode(items[k]) + after && |before| == size * k
  {
    var last := |items| - 1;
    if k == last {
      before, after := EncodeAll(items[..last], encode), [];
      ColumnLength(items[..last], encode, size);
      assert before + encode(items[k]) + after == before + encode(items[k]);
    } else {
      var rest;
      before, rest := RowOfColumn(items[..last], encode, size, k);
      after := rest + encode(items[last]);
      assert (before + encode(items[k]) + rest) + encode(items[last]) == before + encode(items[k]) + after;
    }
  }

  // ----- The file -----

  /** The sections around one of them. */
  lemma Around(a: seq<Byte>, b: seq<Byte>, c: seq<Byte>, x: seq<Byte>, y: seq<Byte>, row: seq<Byte>)
    requires b == x + row + y
    ensures a + b + c == (a + x) + row + (y + c)
  {}

  /** The file before and behind one of its sections. */
  lemma Grouped(a: seq<Byte>, b: seq<Byte>, c: seq<Byte>, d: seq<Byte>, e: seq<Byte>, f: seq<Byte>)
    ensures a + b + c + d + e + f == a + b + (c + d + e + f)
    ensures a + b + c + d + e + f == (a + b) + c + (d + e + f)
    ensures a + b + c + d + e + f == (a + b + c) + d + (e + f)
    ensures a + b + c + d + e + f == (a + b + c + d) + e + f
  {}

  lemma SectionStarts(b: Base, volumeSerial: nat, cursor: UsnCursor)
    requires FileFits(b, volumeSerial, cursor)
    ensures var header := EncodeHeader(HeaderFor(b, volumeSerial, cursor));
            && |header| == 112 && |header + EncodeRecords(b)| == 112 + 24 * |b.records|
            && |header + EncodeRecords(b) + EncodeNames(b)| == 112 + 24 * |b.records| + |b.names|
            && |header + EncodeRecords(b) + EncodeNames(b) + EncodeOffsets(b)| ==
               112 + 24 * |b.records| + |b.names| + 4 * (|b.records| + 1)
  {
    HeaderRoundTrip(HeaderFor(b, volumeSerial, cursor));
    SectionLengths(b);
  }

  function FileOf(b: Base, volumeSerial: nat, cursor: UsnCursor): seq<Byte> {
    match WriteTo(b, volumeSerial, cursor) case Ok(data) => data case Err(_) => []
  }

  lemma FileIs(b: Base, volumeSerial: nat, cursor: UsnCursor)
    requires FileFits(b, volumeSerial, cursor)
    ensures FileOf(b, volumeSerial, cursor) ==
            EncodeHeader(HeaderFor(b, volumeSerial, cursor)) + EncodeRecords(b) + EncodeNames(b) + EncodeOffsets(b)
            + EncodeIndices(b) + EncodeMap(b.fileRefMap)
  {}

  /** Row `k` stands at byte 112 + 24 k. */
  lemma RecordsLayout(b: Base, volumeSerial: nat, cursor: UsnCursor, k: nat)
    requires FileFits(b, volumeSerial, cursor) && k < |b.records|
    ensures RowAt(FileOf(b, volumeSerial, cursor), 112 + 24 * k, b.records[k])
  {
    var header := EncodeHeader(HeaderFor(b, volumeSerial, cursor));
    FileIs(b, volumeSerial, cursor);
    SectionStarts(b, volumeSerial, cursor);
    Grouped(header, EncodeRecords(b), EncodeNames(b), EncodeOffsets(b), EncodeIndices(b), EncodeMap(b.fileRefMap));
    RecordStands(b, header, EncodeNames(b) + EncodeOffsets(b) + EncodeIndices(b) + EncodeMap(b.fileRefMap), k);
  }

  /** The units of the names stand behind the rows. */
  lemma NamesLayout(b: Base, volumeSerial: nat, cursor: UsnCursor, k: nat)
    requires FileFits(b, volumeSerial, cursor) && k < |b.names|
    ensures StandsAt(FileOf(b, volumeSerial, cursor), 112 + 24 * |b.records| + k, 1, b.names[k] as nat)
  {
    var header := EncodeHeader(HeaderFor(b, volumeSerial, cursor));
    FileIs(b, volumeSerial, cursor);
    SectionStarts(b, volumeSerial, cursor);
    Grouped(header, EncodeRecords(b), EncodeNames(b), EncodeOffsets(b), EncodeIndices(b), EncodeMap(b.fileRefMap));
    UnitStands(b.names, header + EncodeRecords(b), EncodeOffsets(b) + EncodeIndices(b) + EncodeMap(b.fileRefMap), k);
  }

  /** The child table stands behind the names, four bytes for each entry: first the offsets. */
  lemma OffsetsLayout(b: Base, volumeSerial: nat, cursor: UsnCursor, k: nat)
    requires FileFits(b, volumeSerial, cursor) && k <= |b.records|
    ensures StandsAt(FileOf(b, volumeSerial, cursor), 112 + 24 * |b.records| + |b.names| + 4 * k, 4, b.childrenOffsets[k])
  {
    var header := EncodeHeader(HeaderFor(b, volumeSerial, cursor));
    FileIs(b, volumeSerial, cursor);
    SectionStarts(b, volumeSerial, cursor);
    Grouped(header, EncodeRecords(b), EncodeNames(b), EncodeOffsets(b), EncodeIndices(b), EncodeMap(b.fileRefMap));
    NumberStands(b.childrenOffsets, header + EncodeRecords(b) + EncodeNames(b), EncodeIndices(b) + EncodeMap(b.fileRefMap), k);
  }

  /** Then the children. */
  lemma IndicesLayout(b: Base, volumeSerial: nat, cursor: UsnCursor, k: nat)
    requires FileFits(b, volumeSerial, cursor) && k < |b.childrenIndices|
    ensures StandsAt(FileOf(b, volumeSerial, cursor),
                     112 + 24 * |b.records| + |b.names| + 4 * (|b.records| + 1) + 4 * k, 4, b.childrenIndices[k])
  {
    var header := EncodeHeader(HeaderFor(b, volumeSerial, cursor));
    FileIs(b, volumeSerial, cursor);
    SectionStarts(b, volumeSerial, cursor);
    Grouped(header, EncodeRecords(b), EncodeNames(b), EncodeOffsets(b), EncodeIndices(b), EncodeMap(b.fileRefMap));
    NumberStands(b.childrenIndices, header + EncodeRecords(b) + EncodeNames(b) + EncodeOffsets(b), EncodeMap(b.fileRefMap), k);
  }

  lemma RecordStands(b: Base, before: seq<Byte>, after: seq<Byte>, k: nat)
    requires BaseFits(b) && k < |b.records|
    ensures RowAt(before + EncodeRecords(b) + after, |before| + 24 * k, b.records[k])
  {
    forall j | 0 <= j < |b.records| ensures |ENCODE_RECORD(b.records[j])| == 24 { RecordRoundTrip(b.records[j]); }
    var x, y := RowOfColumn(b.records, ENCODE_RECORD, 24, k);
    RowBegins(b.records[k]);
    Around(before, EncodeRecords(b), after, x, y, ENCODE_RECORD(b.records[k]));
    RowInside(before + x, ENCODE_RECORD(b.records[k]), y + after, 0, b.records[k]);
  }

  lemma UnitStands(names: string, before: seq<Byte>, after: seq<Byte>, k: nat)
    requires k < |names|
    ensures StandsAt(before + EncodeAll(names, ENCODE_CHAR) + after, |before| + k, 1, names[k] as nat)
  {
    var x, y := RowOfColumn(names, ENCODE_CHAR, 1, k);
    LeStands(names[k] as nat, 1);
    Around(before, EncodeAll(names, ENCODE_CHAR), after, x, y, ENCODE_CHAR(names[k]));
    StandsInside(before + x, ENCODE_CHAR(names[k]), y + after, 0, 1, names[k] as nat);
  }

  lemma NumberStands(column: seq<nat>, before: seq<Byte>, after: seq<Byte>, k: nat)
    requires k < |column|
    ensures StandsAt(before + EncodeAll(column, ENCODE_U32) + after, |before| + 4 * k, 4, column[k])
  {
    var x, y := RowOfColumn(column, ENCODE_U32, 4, k);
    LeStands(column[k], 4);
    Around(before, EncodeAll(column, ENCODE_U32), after, x, y, ENCODE_U32(column[k]));
    StandsInside(before + x, ENCODE_U32(column[k]), y + after, 0, 4, column[k]);
  }

  /** A pair of the lookup table: eight bytes of reference, four of index. */
  ghost predicate PairAt(bytes: seq<Byte>, at: nat, p: RefPair) {
    StandsAt(bytes, at, 8, p.fileRef.sequence * 0x1_0000_0000_0000 + p.fileRef.number) && StandsAt(bytes, at + 8, 4, p.idx)
  }

  lemma PairBegins(p: RefPair)
    ensures PairAt(ENCODE_PAIR(p), 0, p) && |ENCODE_PAIR(p)| == 12
  {
    var values, widths := [RefValue(p.fileRef), p.idx], [8, 4];
    FieldStands(values, widths, 0);
    FieldStands(values, widths, 1);
    FieldsLength(values, widths);
    assert widths[..1] == [8] && [8][1..] == [] && widths[1..] == [4] && [4][1..] == [];
  }

  /** The lookup table: the number of pairs, and pair `k` at byte 4 + 12 k. */
  lemma TableLayout(m: FileRefMap, k: nat)
    requires k < |Pairs(m)| <= U32_MAX
    ensures StandsAt(EncodeMap(m), 0, 4, |Pairs(m)|) && PairAt(EncodeMap(m), 4 + 12 * k, Pairs(m)[k])
  {
    var pairs := Pairs(m);
    var count, rows := Le(|pairs|, 4), PairRows(pairs);
    LeStands(|pairs|, 4);
    StandsInside([], count, rows, 0, 4, |pairs|);
    assert [] + count + rows == EncodeMap(m);
    forall j | 0 <= j < |pairs| ensures |ENCODE_PAIR(pairs[j])| == 12 { PairBegins(pairs[j]); }
    PairBegins(pairs[k]);
    var x, y := RowOfColumn(pairs, ENCODE_PAIR, 12, k);
    assert EncodeMap(m) == (count + x) + ENCODE_PAIR(pairs[k]) + y;
    StandsInside(count + x, ENCODE_PAIR(pairs[k]), y, 0, 8, RefValue(pairs[k].fileRef));
    StandsInside(count + x, ENCODE_PAIR(pairs[k]), y, 8, 4, pairs[k].idx);
  }

  // ----- Reading any file -----

  lemma {:induction false} LeOfNumber(bytes: seq<Byte>)
    ensures Le(FromLe(bytes), |bytes|) == bytes
  {
    if bytes != [] {
      LeOfNumber(bytes[1..]);
      assert FromLe(bytes) % 256 == bytes[0] && FromLe(bytes) / 256 == FromLe(bytes[1..]);
    }
  }

  /** A field reads as the one number that stands there. */
  lemma ReadsWhatStands(bytes: seq<Byte>, at: nat, width: nat, n: nat)
    requires at + width <= |bytes| && n < Pow256(width)
    ensures FromLe(bytes[at..at + width]) == n <==> StandsAt(bytes, at, width, n)
  {
    var field := bytes[at..at + width];
    if FromLe(field) == n {
      LeOfNumber(field);
      LeStands(n, width);
    }
    if StandsAt(bytes, at, width, n) {
      forall i | 0 <= i < width ensures field[i] == Le(n, width)[i] {
        LeByte(n, width, i);
        assert bytes[at + i] == ByteOf(n, i);
      }
      assert field == Le(n, width);
      LeRoundTrip(n, width);
    }
  }

  lemma SliceOfRest(bytes: seq<Byte>, w: nat, at: nat, width: nat)
    requires w + at + width <= |bytes|
    ensures bytes[w..][at..at + width] == bytes[w + at..w + at + width]
  {}

  lemma {:induction false} DecodedField(bytes: seq<Byte>, widths: seq<nat>, k: nat)
    requires k < |widths| && TotalWidth(widths[..k]) + widths[k] <= |bytes|
    ensures var at := TotalWidth(widths[..k]);
            DecodeFields(bytes, widths)[k] == FromLe(bytes[at..at + widths[k]])
    decreases k
  {
    if k == 0 {
      assert widths[..0] == [];
    } else {
      var w := widths[0];
      assert widths[..k][1..] == widths[1..][..k - 1];
      assert Min(w, |bytes|) == w;
      DecodedField(bytes[w..], widths[1..], k - 1);
      SliceOfRest(bytes, w, TotalWidth(widths[1..][..k - 1]), widths[k]);
    }
  }

  /** Field `k` of a header of 112 bytes reads as what stands at its offset. */
  lemma FieldReads(data: seq<Byte>, widths: seq<nat>, k: nat, at: nat, width: nat, n: nat)
    requires k < |widths| && at == TotalWidth(widths[..k]) && width == widths[k]
    requires at + width <= 112 <= |data| && n < Pow256(width)
    ensures DecodeFields(data[..112], widths)[k] == n <==> StandsAt(data, at, width, n)
  {
    DecodedField(data[..112], widths, k);
    assert data[..112][at..at + width] == data[at..at + width];
    ReadsWhatStands(data, at, width, n);
  }

  predicate HasMagic(data: seq<Byte>) { |data| >= 8 && data[..8] == [0x45, 0x5A, 0x53, 0x45, 0x41, 0x52, 0x43, 0x48] }

  lemma MagicReads(bytes: seq<Byte>)
    requires |bytes| == 8
    ensures FromLe(bytes) == MAGIC <==> bytes == [0x45, 0x5A, 0x53, 0x45, 0x41, 0x52, 0x43, 0x48]
  {
    if FromLe(bytes) == MAGIC {
      LeOfNumber(bytes);
      LeOfNumber([0x45, 0x5A, 0x53, 0x45, 0x41, 0x52, 0x43, 0x48]);
    }
  }

  /** What the header of any file must say, at these bytes. */
  ghost predicate HeaderAccepted(data: seq<Byte>) {
    HasMagic(data) && StandsAt(data, 8, 4, 1) && StandsAt(data, 12, 4, 112) && StandsAt(data, 16, 4, 24)
  }

  lemma MagicRead(data: seq<Byte>)
    requires |data| >= 112
    ensures DecodeHeader(data[..112]).magic == MAGIC <==> HasMagic(data)
  {
    FirstFieldReads(data, HEADER_WIDTHS);
    MagicReads(data[..8]);
  }

  lemma FirstFieldReads(data: seq<Byte>, widths: seq<nat>)
    requires |data| >= 112 && widths != [] && widths[0] == 8
    ensures DecodeFields(data[..112], widths)[0] == FromLe(data[..8])
  {
    assert data[..112][..8] == data[..8];
  }

  lemma NumberReads(data: seq<Byte>, k: nat, at: nat, n: nat)
    requires |data| >= 112 && n <= U32_MAX && (k, at) in [(1, 8), (2, 12), (3, 16)]
    ensures HeaderField(data, k) == n <==> StandsAt(data, at, 4, n)
  {
    Pow256Values();
    WidthsUpTo(k);
    FieldReads(data, HEADER_WIDTHS, k, at, 4, n);
  }

  function HeaderField(data: seq<Byte>, k: nat): nat
    requires k < 17 && |data| >= 112
  {
    DecodeFields(data[..112], HEADER_WIDTHS)[k]
  }

  lemma SerialReads(data: seq<Byte>, n: nat)
    requires |data| >= 112 && n < U64
    ensures HeaderField(data, 5) == n <==> StandsAt(data, 24, 8, n)
  {
    Pow256Values();
    WidthsUpTo(5);
    FieldReads(data, HEADER_WIDTHS, 5, 24, 8, n);
  }

  lemma HeaderReads(data: seq<Byte>, volumeSerial: nat)
    requires |data| >= 112 && volumeSerial < U64
    ensures var h := DecodeHeader(data[..112]);
            && (h.magic == MAGIC <==> HasMagic(data)) && (h.version == 1 <==> StandsAt(data, 8, 4, 1))
            && (h.headerBytes == 112 <==> StandsAt(data, 12, 4, 112)) && (h.recordBytes == 24 <==> StandsAt(data, 16, 4, 24))
            && (h.volumeSerial == volumeSerial <==> StandsAt(data, 24, 8, volumeSerial))
  {
    MagicRead(data);
    NumberReads(data, 1, 8, 1);
    NumberReads(data, 2, 12, 112);
    NumberReads(data, 3, 16, 24);
    SerialReads(data, volumeSerial);
  }

  lemma FaultsOfHeader(h: EsCacheHeader, data: seq<Byte>, volumeSerial: nat)
    ensures var r := ParseBehind(h, data, volumeSerial);
            && (r == Err(CacheHeader(MagicMismatch)) <==> h.magic != MAGIC)
            && (r == Err(CacheHeader(VersionMismatch)) <==> h.magic == MAGIC && h.version != 1)
            && (r == Err(CacheHeader(HeaderSizeMismatch)) <==> h.magic == MAGIC && h.version == 1 && h.headerBytes != 112)
            && (r == Err(CacheHeader(RecordSizeMismatch)) <==>
                  h.magic == MAGIC && h.version == 1 && h.headerBytes == 112 && h.recordBytes != 24)
            && (r == Err(CacheHeader(VolumeSerialMismatch)) <==>
                  && h.magic == MAGIC && h.version == 1 && h.headerBytes == 112 && h.recordBytes == 24
                  && h.volumeSerial != volumeSerial)
            && r != Err(CacheHeader(FileTooSmall))
  {
    SectionFaults(data, h);
  }

  lemma SectionFaults(data: seq<Byte>, h: EsCacheHeader)
    ensures var r := ParseSections(data, h);
            r.Err? ==>
              && r.error.CacheHeader? && r.error.fault !in {FileTooSmall, MagicMismatch, VersionMismatch}
              && r.error.fault !in {HeaderSizeMismatch, RecordSizeMismatch, VolumeSerialMismatch}
  {}

  /** Whatever bytes a file holds, the first fault of its header is the one reported. */
  lemma FirstHeaderFault(data: seq<Byte>, volumeSerial: nat)
    requires volumeSerial < U64
    ensures var r := ParseCache(data, volumeSerial);
            && (r == Err(CacheHeader(FileTooSmall)) <==> |data| < 112)
            && (r == Err(CacheHeader(MagicMismatch)) <==> |data| >= 112 && !HasMagic(data))
            && (r == Err(CacheHeader(VersionMismatch)) <==> |data| >= 112 && HasMagic(data) && !StandsAt(data, 8, 4, 1))
            && (r == Err(CacheHeader(HeaderSizeMismatch)) <==>
                  |data| >= 112 && HasMagic(data) && StandsAt(data, 8, 4, 1) && !StandsAt(data, 12, 4, 112))
            && (r == Err(CacheHeader(RecordSizeMismatch)) <==>
                  && |data| >= 112 && HasMagic(data) && StandsAt(data, 8, 4, 1) && StandsAt(data, 12, 4, 112)
                  && !StandsAt(data, 16, 4, 24))
            && (r == Err(CacheHeader(VolumeSerialMismatch)) <==>
                  |data| >= 112 && HeaderAccepted(data) && !StandsAt(data, 24, 8, volumeSerial))
  {
    if |data| >= 112 {
      HeaderReads(data, volumeSerial);
      FaultsOfHeader(DecodeHeader(data[..112]), data, volumeSerial);
    }
  }

  ghost predicate SectionsInside(size: nat, h: EsCacheHeader) {
    && h.recordsOffset + 24 * h.recordCount <= size && h.namesOffset + h.nameBytes <= size
    && h.childrenOffsetsOffset + 4 * (h.recordCount + 1) <= size
    && h.childrenIndicesOffset <= h.fileRefMapOffset <= h.searchIndexOffset <= size
  }

  lemma CutIffInside(data: seq<Byte>, h: EsCacheHeader)
    ensures CutSections(data, h).Ok? <==> SectionsInside(|data|, h)
    ensures CutSections(data, h).Ok? ==> CutSections(data, h).value.table == data[h.fileRefMapOffset..h.searchIndexOffset]
  {}

  lemma TableReadsIff(table: seq<Byte>)
    ensures DecodeMap(table).Ok? <==> (|table| >= 4 ==> 4 + 12 * FromLe(table[..4]) <= |table|)
  {}

  /** A file with a good header is read if and only if its sections lie inside it, in order, and the table holds its pairs. */
  lemma SectionsAcceptedIff(data: seq<Byte>, h: EsCacheHeader)
    ensures ParseSections(data, h).Ok? <==>
            SectionsInside(|data|, h) &&
            (var table := data[h.fileRefMapOffset..h.searchIndexOffset];
             |table| >= 4 ==> 4 + 12 * FromLe(table[..4]) <= |table|)
  {
    CutIffInside(data, h);
    if SectionsInside(|data|, h) { TableReadsIff(data[h.fileRefMapOffset..h.searchIndexOffset]); }
  }
}
