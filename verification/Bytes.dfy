/** Little-endian fields and fixed-size rows, as the cache file lays them out. */
module Bytes {
  import opened Basics

  type Byte = x: nat | x < 256

  function Pow256(k: nat): nat { if k == 0 then 1 else 256 * Pow256(k - 1) }

  lemma Pow256Values()
    ensures Pow256(2) == 0x1_0000
    ensures Pow256(4) == 0x1_0000_0000
    ensures Pow256(8) == 0x1_0000_0000_0000_0000
  {
    assert Pow256(1) == 256;
    assert Pow256(3) == 0x100_0000;
    assert Pow256(5) == 0x100_0000_0000;
    assert Pow256(6) == 0x1_0000_0000_0000;
    assert Pow256(7) == 0x100_0000_0000_0000;
  }

  /** The `k` low bytes of a number, lowest first. */
  function Le(n: nat, k: nat): (bytes: seq<Byte>)
    ensures |bytes| == k
  {
    if k == 0 then [] else [n % 256] + Le(n / 256, k - 1)
  }

  function FromLe(bytes: seq<Byte>): nat { if bytes == [] then 0 else bytes[0] + 256 * FromLe(bytes[1..]) }

  lemma {:induction false} LeRoundTrip(n: nat, k: nat)
    requires n < Pow256(k)
    ensures FromLe(Le(n, k)) == n
  {
    if k > 0 {
      LeRoundTrip(n / 256, k - 1);
      assert Le(n, k)[1..] == Le(n / 256, k - 1);
    }
  }

  function Slice(data: seq<Byte>, start: nat, end: nat): Option<seq<Byte>> {
    if start <= end <= |data| then Some(data[start..end]) else None
  }

  lemma CutAt(before: seq<Byte>, section: seq<Byte>, after: seq<Byte>, data: seq<Byte>, start: nat, end: nat)
    requires data == before + (section + after) && start == |before| && end == start + |section|
    ensures Slice(data, start, end) == Some(section)
  {
    assert data[start..end] == section;
  }

  lemma Regrouped(a: seq<Byte>, b: seq<Byte>, c: seq<Byte>)
    ensures (a + b) + c == a + (b + c)
  {}

  /** Six sections laid end to end can be cut out again at the sums of their lengths. */
  lemma SixSections(a: seq<Byte>, b: seq<Byte>, c: seq<Byte>, d: seq<Byte>, e: seq<Byte>, f: seq<Byte>, data: seq<Byte>)
    requires data == a + b + c + d + e + f
    ensures Slice(data, 0, |a|) == Some(a)
    ensures Slice(data, |a|, |a| + |b|) == Some(b)
    ensures Slice(data, |a| + |b|, |a| + |b| + |c|) == Some(c)
    ensures Slice(data, |a| + |b| + |c|, |a| + |b| + |c| + |d|) == Some(d)
    ensures Slice(data, |a| + |b| + |c| + |d|, |a| + |b| + |c| + |d| + |e|) == Some(e)
    ensures Slice(data, |a| + |b| + |c| + |d| + |e|, |data|) == Some(f)
  {
    var ef := e + f;
    var def := d + ef;
    var cdef := c + def;
    var bcdef := b + cdef;
    Regrouped(a + b + c + d, e, f);
    Regrouped(a + b + c, d, ef);
    Regrouped(a + b, c, def);
    Regrouped(a, b, cdef);
    CutAt([], a, bcdef, data, 0, |a|);
    CutAt(a, b, cdef, data, |a|, |a| + |b|);
    CutAt(a + b, c, def, data, |a| + |b|, |a| + |b| + |c|);
    CutAt(a + b + c, d, ef, data, |a| + |b| + |c|, |a| + |b| + |c| + |d|);
    CutAt(a + b + c + d, e, f, data, |a| + |b| + |c| + |d|, |a| + |b| + |c| + |d| + |e|);
    assert f + [] == f;
    CutAt(a + b + c + d + e, f, [], data, |a| + |b| + |c| + |d| + |e|, |data|);
  }

  // ----- Structures of unsigned fields -----

  function EncodeFields(values: seq<nat>, widths: seq<nat>): seq<Byte>
    requires |values| == |widths|
  {
    if values == [] then [] else Le(values[0], widths[0]) + EncodeFields(values[1..], widths[1..])
  }

  function DecodeFields(bytes: seq<Byte>, widths: seq<nat>): (values: seq<nat>)
    ensures |values| == |widths|
    decreases |widths|
  {
    if widths == [] then []
    else
      var w := Min(widths[0], |bytes|);
      [FromLe(bytes[..w])] + DecodeFields(bytes[w..], widths[1..])
  }

  ghost predicate FieldsFit(values: seq<nat>, widths: seq<nat>) {
    |values| == |widths| && forall k :: 0 <= k < |values| ==> values[k] < Pow256(widths[k])
  }

  /** Reading fields back gives what was written. */
  lemma {:induction false} FieldsRoundTrip(values: seq<nat>, widths: seq<nat>)
    requires FieldsFit(values, widths)
    ensures DecodeFields(EncodeFields(values, widths), widths) == values
    decreases |values|
  {
    if values != [] {
      var rest := EncodeFields(values[1..], widths[1..]);
      var bytes := EncodeFields(values, widths);
      FieldsRoundTrip(values[1..], widths[1..]);
      LeRoundTrip(values[0], widths[0]);
      assert bytes[..widths[0]] == Le(values[0], widths[0]) && bytes[widths[0]..] == rest;
    }
  }

  function TotalWidth(widths: seq<nat>): nat { if widths == [] then 0 else widths[0] + TotalWidth(widths[1..]) }

  lemma {:induction false} FieldsLength(values: seq<nat>, widths: seq<nat>)
    requires |values| == |widths|
    ensures |EncodeFields(values, widths)| == TotalWidth(widths)
    decreases |values|
  {
    if values != [] {
      FieldsLength(values[1..], widths[1..]);
    }
  }

  // ----- Columns of fixed-size rows -----

  function EncodeAll<T>(items: seq<T>, encode: T -> seq<Byte>): seq<Byte> {
    if items == [] then [] else EncodeAll(items[..|items| - 1], encode) + encode(items[|items| - 1])
  }

  /** Whole chunks only; a remainder is ignored. */
  function DecodeAll<T>(bytes: seq<Byte>, size: nat, decode: seq<Byte> -> T): seq<T>
    requires size > 0
    decreases |bytes|
  {
    if |bytes| < size then [] else [decode(bytes[..size])] + DecodeAll(bytes[size..], size, decode)
  }

  ghost predicate RowCodes<T>(encode: T -> seq<Byte>, decode: seq<Byte> -> T, size: nat, item: T) {
    |encode(item)| == size && decode(encode(item)) == item
  }

  lemma {:induction false} ColumnLength<T>(items: seq<T>, encode: T -> seq<Byte>, size: nat)
    requires forall k :: 0 <= k < |items| ==> |encode(items[k])| == size
    ensures |EncodeAll(items, encode)| == size * |items|
  {
    if items != [] {
      ColumnLength(items[..|items| - 1], encode, size);
      assert size * (|items| - 1) + size == size * |items|;
    } else {
      assert size * 0 == 0;
    }
  }

  lemma {:induction false} EncodeAllCons<T>(items: seq<T>, encode: T -> seq<Byte>)
    requires items != []
    ensures EncodeAll(items, encode) == encode(items[0]) + EncodeAll(items[1..], encode)
  {
    if |items| == 1 {
      assert items[..0] == [] && items[1..] == [];
    } else {
      EncodeAllCons(items[..|items| - 1], encode);
      assert items[1..][..|items| - 2] == items[..|items| - 1][1..];
    }
  }

  /** Reading a column back gives the rows that were written. */
  lemma {:induction false} ColumnRoundTrip<T>(items: seq<T>, encode: T -> seq<Byte>, decode: seq<Byte> -> T, size: nat)
    requires size > 0 && forall k :: 0 <= k < |items| ==> RowCodes(encode, decode, size, items[k])
    ensures DecodeAll(EncodeAll(items, encode), size, decode) == items
    decreases |items|
  {
    if items != [] {
      var bytes := EncodeAll(items, encode);
      EncodeAllCons(items, encode);
      assert RowCodes(encode, decode, size, items[0]);
      assert bytes[..size] == encode(items[0]) && bytes[size..] == EncodeAll(items[1..], encode);
      ColumnRoundTrip(items[1..], encode, decode, size);
    }
  }

  /** `pod_collect_unaligned`: read whole chunks, one after the other. */
  method CollectRows<T>(bytes: seq<Byte>, size: nat, decode: seq<Byte> -> T) returns (rows: seq<T>)
    requires size > 0
    ensures rows == DecodeAll(bytes, size, decode)
  {
    rows := [];
    var at := 0;
    assert bytes[0..] == bytes;
    while at + size <= |bytes|
      invariant at <= |bytes|
      invariant DecodeAll(bytes, size, decode) == rows + DecodeAll(bytes[at..], size, decode)
    {
      assert bytes[at..][..size] == bytes[at..at + size] && bytes[at..][size..] == bytes[at + size..];
      rows := rows + [decode(bytes[at..at + size])];
      at := at + size;
    }
  }
}
