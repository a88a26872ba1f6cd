/**
 What the tree leaves out of a record: its whole file reference, sequence number
 included, all of its flag bits, and its rank. Events and compactions keep them too.
 */
module Attributes {
  import opened Basics
  import opened Records
  import opened Overlay
  import opened VolumeTree
  import opened Refinement
  import opened BatchOrder
  import opened Builder
  import opened Compaction

  datatype Attribute = Attribute(fileRef: FileRef, flags: nat, rank: nat)

  /** The lowest bit of the flags marks a directory, the second a tombstone, whatever the others say. */
  lemma FlagBits(others: nat, bits: nat)
    requires bits < 4
    ensures HasDirectoryFlag(others * 4 + bits) <==> bits == 1 || bits == 3
    ensures HasTombstoneFlag(others * 4 + bits) <==> bits == 2 || bits == 3
  {
    assert (others * 4 + bits) / 2 == others * 2 + bits / 2;
  }

  /** The stored row that a record number finds. */
  function AttributeOf(v: View, n: nat): Option<Attribute> {
    match Lookup(v, n)
    case None => None
    case Some(i) => AttributeAt(v, i)
  }

  function AttributeAt(v: View, i: nat): Option<Attribute> {
    if i < |v.base.records| then Some(Attribute(v.base.records[i].fileRef, v.base.records[i].flags, v.base.records[i].rank))
    else if i < |v.base.records| + |v.delta.inserted| then
      var rec := v.delta.inserted[i - |v.base.records|];
      Some(Attribute(rec.fileRef, rec.flags, 0))
    else None
  }

  /** What an event makes of the attributes of its own number. */
  function AttributeAfter(before: Option<Attribute>, e: UsnEvent): Option<Attribute> {
    var created := Some(Attribute(e.fileRef, if e.flags.Some? then e.flags.value else 0, 0));
    match e.kind
    case Delete => None
    case Create => if HasName(e) then created else before
    case Metadata => before
    case _ => if before.None? && HasName(e) then created else before
  }

  lemma RowsStay(v: View, e: UsnEvent, i: nat)
    requires i < LogicalLen(v)
    ensures AttributeAt(ApplyEvent(v, e), i) == AttributeAt(v, i)
  {}

  /** An event changes the attributes of its own number alone; a rename or move of a known record changes none. */
  lemma EventKeepsAttributes(v: View, e: UsnEvent, n: nat)
    requires Indexed(v)
    ensures AttributeOf(ApplyEvent(v, e), n) ==
            if n == NumberOf(e) then AttributeAfter(AttributeOf(v, n), e) else AttributeOf(v, n)
  {
    assert NumberOk(v, n);
    if Lookup(v, n).Some? { RowsStay(v, e, Lookup(v, n).value); }
    if n != NumberOf(e) { LookupOfOthers(v, e, n); } else { OwnAttribute(v, e); }
  }

  lemma CreatedRow(v: View, e: UsnEvent)
    requires HasName(e)
    ensures AttributeOf(ApplyCreate(v, e), NumberOf(e)) ==
            Some(Attribute(e.fileRef, if e.flags.Some? then e.flags.value else 0, 0))
  {}

  lemma OwnAttribute(v: View, e: UsnEvent)
    requires NumberOk(v, NumberOf(e))
    ensures AttributeOf(ApplyEvent(v, e), NumberOf(e)) == AttributeAfter(AttributeOf(v, NumberOf(e)), e)
  {
    if HasName(e) { CreatedRow(v, e); }
    var found := Lookup(v, NumberOf(e));
    if found.Some? { RowsStay(v, e, found.value); }
  }

  lemma RowKeepsAttribute(v: View, k: nat)
    requires Inv(v) && k < |LiveList(v)|
    ensures Lookup(Compact(v), NumberAt(v, LiveList(v)[k])) == Some(k)
    ensures AttributeAt(Compact(v), k) == AttributeAt(v, LiveList(v)[k])
  {
    AdditionAt(v, k);
    BuiltRecordAt(Additions(Snapshot(v)), k);
    CompactInv(v);
    assert RecordOk(Compact(v), k);
    assert LiveList(v)[k] in LiveList(v);
  }

  /** A compaction keeps the attributes of every number. */
  lemma CompactionKeepsAttributes(v: View, n: nat)
    requires Inv(v)
    ensures AttributeOf(Compact(v), n) == AttributeOf(v, n)
  {
    AbsHas(v, n);
    if n in Abs(v) {
      var i := Lookup(v, n).value;
      var live := LiveList(v);
      assert i in live;
      var k :| 0 <= k < |live| && live[k] == i;
      RowKeepsAttribute(v, k);
    } else if Lookup(Compact(v), n).Some? {
      CompactFindsOnly(v, n);
    }
  }
}
