/**
 An index as a value: an immutable base under a mutable overlay (index.rs,
 delta.rs). Every query merges the two layers; every event changes only the
 overlay. The class EsIndex runs the same operations in place.
 */
module Overlay {
  import opened Basics
  import opened Records
  import opened FileRefMaps
  import opened Paths

  /** The base columns: rows, name blob, CSR child table and reference lookup. */
  datatype Base = Base(
    records: seq<EsRecord>, names: string,
    childrenOffsets: seq<nat>, childrenIndices: seq<nat>, fileRefMap: FileRefMap)

  datatype InsertedRecord = InsertedRecord(fileRef: FileRef, parentRef: FileRef, name: string, flags: nat)

  datatype Delta = Delta(
    inserted: seq<InsertedRecord>, renamed: map<nat, string>, moved: map<nat, nat>,
    deleted: set<nat>, refOverrides: map<nat, Option<nat>>)
  {
    predicate IsEmpty() {
      inserted == [] && renamed == map[] && moved == map[] && deleted == {} && refOverrides == map[]
    }

    function EventCount(): nat { |inserted| + |renamed| + |moved| + |deleted| }
  }

  const EMPTY_DELTA := Delta([], map[], map[], {}, map[])

  datatype View = View(base: Base, delta: Delta)

  // ----- Base accessors -----

  function BaseName(b: Base, index: nat): Result<string, EsError> {
    if index >= |b.records| then Err(RecordIndexOutOfRange(index))
    else
      var start, end := b.records[index].nameOffset, b.records[index].nameOffset + b.records[index].nameLen;
      if end > |b.names| then Err(InvalidNameRange(index)) else Ok(b.names[start..end])
  }

  function BaseChildren(b: Base, index: nat): Result<seq<nat>, EsError> {
    if index >= |b.records| || index + 1 >= |b.childrenOffsets| then Err(RecordIndexOutOfRange(index))
    else
      var start, end := b.childrenOffsets[index], b.childrenOffsets[index + 1];
      if start <= end <= |b.childrenIndices| then Ok(b.childrenIndices[start..end])
      else Err(RecordIndexOutOfRange(index))
  }

  // ----- Logical accessors -----

  function BaseLen(v: View): nat { |v.base.records| }

  function LogicalLen(v: View): nat { |v.base.records| + |v.delta.inserted| }

  function InsertedAt(v: View, index: nat): Option<InsertedRecord> {
    if BaseLen(v) <= index < LogicalLen(v) then Some(v.delta.inserted[index - BaseLen(v)]) else None
  }

  /** The overlay's override of a record number wins over the base table. */
  function Lookup(v: View, number: nat): Option<nat> {
    if number in v.delta.refOverrides then v.delta.refOverrides[number]
    else GetNumber(v.base.fileRefMap, number)
  }

  function RefLookup(v: View, fileRef: FileRef): Option<nat> { Lookup(v, MftRecordNumber(fileRef)) }

  predicate LogicalIsDeleted(v: View, index: nat) {
    index in v.delta.deleted ||
    if index < BaseLen(v) then v.base.records[index].IsTombstone() else InsertedAt(v, index).None?
  }

  function LogicalName(v: View, index: nat): Option<string> {
    if index in v.delta.renamed then Some(v.delta.renamed[index])
    else if index < BaseLen(v) then
      match BaseName(v.base, index) case Ok(name) => Some(name) case Err(_) => None
    else
      match InsertedAt(v, index) case Some(rec) => Some(rec.name) case None => None
  }

  function LogicalParent(v: View, index: nat): Option<nat> {
    if index in v.delta.moved then
      if v.delta.moved[index] == PARENT_NONE then None else Some(v.delta.moved[index])
    else if index < BaseLen(v) then
      var parent := v.base.records[index].parentIdx;
      if parent == PARENT_NONE then None else Some(parent)
    else
      match InsertedAt(v, index)
      case None => None
      case Some(rec) => RefLookup(v, rec.parentRef)
  }

  predicate LogicalIsDir(v: View, index: nat) {
    if index < BaseLen(v) then v.base.records[index].IsDirectory()
    else match InsertedAt(v, index)
      case None => false
      case Some(rec) => HasDirectoryFlag(rec.flags)
  }

  /** Names from `current` up to its root; `index` is where the walk began. */
  function NamesUp(v: View, index: nat, current: nat, fuel: nat): Result<seq<string>, EsError>
    decreases fuel
  {
    if fuel == 0 then Err(ParentCycle(index))
    else
      match LogicalName(v, current)
      case None => Err(RecordIndexOutOfRange(current))
      case Some(name) =>
        match LogicalParent(v, current)
        case None => Ok([name])
        case Some(parent) =>
          match NamesUp(v, index, parent, fuel - 1)
          case Ok(rest) => Ok([name] + rest)
          case Err(e) => Err(e)
  }

  function LogicalPath(v: View, index: nat): Result<string, EsError> {
    match NamesUp(v, index, index, LogicalLen(v) + 1)
    case Ok(names) => Ok(PathOf(names))
    case Err(e) => Err(e)
  }

  // ----- Children: three loops over base, moves and insertions -----

  predicate KeepsBaseChild(v: View, index: nat, child: nat) {
    child !in v.delta.deleted && (child in v.delta.moved ==> v.delta.moved[child] == index)
  }

  function FilterBaseChildren(v: View, index: nat, children: seq<nat>): seq<nat> {
    if children == [] then []
    else
      var init, last := children[..|children| - 1], children[|children| - 1];
      FilterBaseChildren(v, index, init) + if KeepsBaseChild(v, index, last) then [last] else []
  }

  function BaseKids(v: View, index: nat): seq<nat> {
    if index < BaseLen(v) then
      match BaseChildren(v.base, index)
      case Ok(children) => FilterBaseChildren(v, index, children)
      case Err(_) => []
    else []
  }

  predicate IsMovedKid(v: View, index: nat, child: nat) {
    && child in v.delta.moved && v.delta.moved[child] == index
    && child !in v.delta.deleted
    && !(child < BaseLen(v) && v.base.records[child].parentIdx == index)
  }

  /** The overlay's moves are visited in key order; keys are logical indices. */
  function MovedKids(v: View, index: nat): seq<nat> { Select(0, LogicalLen(v), MovedTo(v, index)) }

  function MovedTo(v: View, index: nat): nat -> bool { (child: nat) => IsMovedKid(v, index, child) }

  predicate IsInsertedKid(v: View, index: nat, child: nat) {
    child !in v.delta.deleted && LogicalParent(v, child) == Some(index)
  }

  function InsertedKids(v: View, index: nat): seq<nat> {
    Select(BaseLen(v), LogicalLen(v), InsertedUnder(v, index))
  }

  function InsertedUnder(v: View, index: nat): nat -> bool { (child: nat) => IsInsertedKid(v, index, child) }

  function LogicalChildren(v: View, index: nat): seq<nat> {
    BaseKids(v, index) + MovedKids(v, index) + InsertedKids(v, index)
  }

  // ----- Events -----

  function ApplyDelete(v: View, fileRef: FileRef): View {
    match RefLookup(v, fileRef)
    case None => v
    case Some(index) =>
      v.(delta := v.delta.(
        deleted := v.delta.deleted + {index},
        refOverrides := v.delta.refOverrides[MftRecordNumber(fileRef) := None]))
  }

  function ApplyCreate(v: View, e: UsnEvent): View {
    if e.name.None? || e.name.value == "" then v
    else
      var logical := LogicalLen(v);
      v.(delta := v.delta.(
        inserted := v.delta.inserted + [NewRecord(e)],
        deleted := v.delta.deleted - {logical},
        refOverrides := v.delta.refOverrides[MftRecordNumber(e.fileRef) := Some(logical)]))
  }

  /** The overlay row of a create event; missing fields default to zero. */
  function NewRecord(e: UsnEvent): InsertedRecord
    requires e.name.Some?
  {
    InsertedRecord(
      e.fileRef,
      if e.parentRef.Some? then e.parentRef.value else FileRef(0, 0),
      e.name.value,
      if e.flags.Some? then e.flags.value else 0)
  }

  function SetLogicalName(v: View, index: nat, name: string): View {
    if index < BaseLen(v) then
      v.(delta := v.delta.(renamed := v.delta.renamed[index := name]))
    else if index < LogicalLen(v) then
      var pos := index - BaseLen(v);
      v.(delta := v.delta.(inserted := v.delta.inserted[pos := v.delta.inserted[pos].(name := name)]))
    else v
  }

  function SetLogicalParent(v: View, index: nat, parent: nat): View {
    v.(delta := v.delta.(moved := v.delta.moved[index := parent]))
  }

  function RenamePart(v: View, index: nat, e: UsnEvent): View {
    if e.name.Some? && e.name.value != "" then SetLogicalName(v, index, e.name.value) else v
  }

  function MovePart(v: View, index: nat, e: UsnEvent): View {
    if e.parentRef.Some? && RefLookup(v, e.parentRef.value).Some? then
      SetLogicalParent(v, index, RefLookup(v, e.parentRef.value).value)
    else v
  }

  function ApplyRenameMove(v: View, e: UsnEvent): View {
    match RefLookup(v, e.fileRef)
    case None => ApplyCreate(v, e)
    case Some(index) => MovePart(RenamePart(v, index, e), index, e)
  }

  function ApplyEvent(v: View, e: UsnEvent): View {
    match e.kind
    case Delete => ApplyDelete(v, e.fileRef)
    case Create => ApplyCreate(v, e)
    case Rename => ApplyRenameMove(v, e)
    case Move => ApplyRenameMove(v, e)
    case Metadata => v
  }

  function ApplyEvents(v: View, events: seq<UsnEvent>): View {
    if events == [] then v
    else ApplyEvent(ApplyEvents(v, events[..|events| - 1]), events[|events| - 1])
  }

  // ----- What every sequence of events keeps -----

  /** The first `k` records' share of row `p` of the child table. */
  function RowUpTo(records: seq<EsRecord>, p: nat, k: nat): seq<nat>
    requires k <= |records|
  {
    if k == 0 then []
    else RowUpTo(records, p, k - 1) + if records[k - 1].parentIdx == p then [k - 1] else []
  }

  /** Row `p` of the child table: the ascending list of records whose parent is `p`. */
  function Row(records: seq<EsRecord>, p: nat): seq<nat> { RowUpTo(records, p, |records|) }

  lemma {:induction false} RowMembers(records: seq<EsRecord>, p: nat, k: nat)
    requires k <= |records|
    ensures Ascending(RowUpTo(records, p, k))
    ensures forall i: nat :: i in RowUpTo(records, p, k) <==> i < k && records[i].parentIdx == p
  {
    if k > 0 {
      RowMembers(records, p, k - 1);
      var init := RowUpTo(records, p, k - 1);
      forall j | 0 <= j < |init| ensures init[j] < k - 1 {
        assert init[j] in init;
      }
    }
  }

  ghost predicate CsrRowOk(b: Base, p: nat) {
    p < |b.records| ==> BaseChildren(b, p) == Ok(Row(b.records, p))
  }

  ghost predicate BaseRowOk(b: Base, i: nat) {
    i < |b.records| ==>
      && !b.records[i].IsTombstone()
      && (b.records[i].parentIdx == PARENT_NONE || b.records[i].parentIdx < |b.records|)
      && b.records[i].nameOffset + b.records[i].nameLen <= |b.names|
  }

  ghost predicate BaseRefOk(b: Base, n: nat) {
    GetNumber(b.fileRefMap, n).Some? ==> GetNumber(b.fileRefMap, n).value < |b.records|
  }

  ghost predicate BaseOk(b: Base) {
    && |b.records| <= PARENT_NONE
    && |b.childrenOffsets| == |b.records| + 1
    && (forall i: nat :: BaseRowOk(b, i))
    && (forall p: nat :: CsrRowOk(b, p))
    && (forall n: nat :: BaseRefOk(b, n))
  }

  ghost predicate DeltaRowOk(v: View, i: nat) {
    && (i in v.delta.renamed ==> i < BaseLen(v))
    && (i in v.delta.moved ==> i < LogicalLen(v) && v.delta.moved[i] < LogicalLen(v))
    && (i in v.delta.deleted ==> i < LogicalLen(v))
  }

  ghost predicate OverrideOk(v: View, n: nat) {
    n in v.delta.refOverrides && v.delta.refOverrides[n].Some? ==>
      v.delta.refOverrides[n].value < LogicalLen(v)
  }

  ghost predicate DeltaOk(v: View) {
    && LogicalLen(v) <= PARENT_NONE
    && (forall i: nat :: DeltaRowOk(v, i))
    && (forall n: nat :: OverrideOk(v, n))
  }

  /** Structural invariant: kept by any events at all, well-formed or not. */
  ghost predicate StructOk(v: View) { BaseOk(v.base) && DeltaOk(v) }

  lemma LookupInRange(v: View, n: nat)
    requires StructOk(v) && Lookup(v, n).Some?
    ensures Lookup(v, n).value < LogicalLen(v)
  {
    assert BaseRefOk(v.base, n) && OverrideOk(v, n);
  }

  /** An overlay is sound when each of its entries is. */
  lemma DeltaOkFromRows(v: View, w: View)
    requires DeltaOk(v) && LogicalLen(v) <= LogicalLen(w) <= PARENT_NONE
    requires forall i: nat :: DeltaRowOk(v, i) ==> DeltaRowOk(w, i)
    requires forall n: nat :: OverrideOk(v, n) ==> OverrideOk(w, n)
    ensures DeltaOk(w)
  {}

  lemma ApplyDeleteKeepsDelta(v: View, fileRef: FileRef)
    requires StructOk(v)
    ensures DeltaOk(ApplyDelete(v, fileRef))
  {
    var w := ApplyDelete(v, fileRef);
    if RefLookup(v, fileRef).Some? { LookupInRange(v, MftRecordNumber(fileRef)); }
    DeltaOkFromRows(v, w);
  }

  lemma ApplyCreateKeepsDelta(v: View, e: UsnEvent)
    requires DeltaOk(v) && LogicalLen(v) < PARENT_NONE
    ensures DeltaOk(ApplyCreate(v, e)) && ApplyCreate(v, e).base == v.base
    ensures LogicalLen(v) <= LogicalLen(ApplyCreate(v, e)) <= LogicalLen(v) + 1
  {
    DeltaOkFromRows(v, ApplyCreate(v, e));
  }

  lemma SetLogicalNameKeepsDelta(v: View, index: nat, name: string)
    requires DeltaOk(v)
    ensures DeltaOk(SetLogicalName(v, index, name))
  {
    DeltaOkFromRows(v, SetLogicalName(v, index, name));
  }

  lemma SetLogicalParentKeepsDelta(v: View, index: nat, parent: nat)
    requires DeltaOk(v) && index < LogicalLen(v) && parent < LogicalLen(v)
    ensures DeltaOk(SetLogicalParent(v, index, parent))
  {
    DeltaOkFromRows(v, SetLogicalParent(v, index, parent));
  }

  lemma ApplyRenameMoveKeepsDelta(v: View, e: UsnEvent)
    requires StructOk(v) && LogicalLen(v) < PARENT_NONE
    ensures DeltaOk(ApplyRenameMove(v, e)) && ApplyRenameMove(v, e).base == v.base
    ensures LogicalLen(v) <= LogicalLen(ApplyRenameMove(v, e)) <= LogicalLen(v) + 1
  {
    match RefLookup(v, e.fileRef) {
      case None => ApplyCreateKeepsDelta(v, e);
      case Some(index) =>
        LookupInRange(v, MftRecordNumber(e.fileRef));
        var r := RenamePart(v, index, e);
        if e.name.Some? { SetLogicalNameKeepsDelta(v, index, e.name.value); }
        if e.parentRef.Some? && RefLookup(r, e.parentRef.value).Some? {
          LookupInRange(r, MftRecordNumber(e.parentRef.value));
          SetLogicalParentKeepsDelta(r, index, RefLookup(r, e.parentRef.value).value);
        }
    }
  }

  /** Any event at all keeps the structural invariant. */
  lemma ApplyEventKeepsStruct(v: View, e: UsnEvent)
    requires StructOk(v) && LogicalLen(v) < PARENT_NONE
    ensures StructOk(ApplyEvent(v, e))
    ensures ApplyEvent(v, e).base == v.base
    ensures LogicalLen(v) <= LogicalLen(ApplyEvent(v, e)) <= LogicalLen(v) + 1
  {
    match e.kind {
      case Delete => ApplyDeleteKeepsDelta(v, e.fileRef);
      case Create => ApplyCreateKeepsDelta(v, e);
      case Rename => ApplyRenameMoveKeepsDelta(v, e);
      case Move => ApplyRenameMoveKeepsDelta(v, e);
      case Metadata =>
    }
  }

  lemma {:induction false} ApplyEventsKeepStruct(v: View, events: seq<UsnEvent>)
    requires StructOk(v) && LogicalLen(v) + |events| <= PARENT_NONE
    ensures StructOk(ApplyEvents(v, events))
    ensures ApplyEvents(v, events).base == v.base
    ensures LogicalLen(v) <= LogicalLen(ApplyEvents(v, events)) <= LogicalLen(v) + |events|
  {
    if events != [] {
      ApplyEventsKeepStruct(v, events[..|events| - 1]);
      ApplyEventKeepsStruct(ApplyEvents(v, events[..|events| - 1]), events[|events| - 1]);
    }
  }

  /** Every reachable state stays inside the index range when it walks upwards. */
  lemma ParentInRange(v: View, i: nat)
    requires StructOk(v) && LogicalParent(v, i).Some?
    ensures LogicalParent(v, i).value < LogicalLen(v)
    ensures i < LogicalLen(v)
  {
    assert DeltaRowOk(v, i) && BaseRowOk(v.base, i);
    if InsertedAt(v, i).Some? {
      var n := MftRecordNumber(InsertedAt(v, i).value.parentRef);
      if Lookup(v, n).Some? { LookupInRange(v, n); }
    }
  }

  lemma NamePresent(v: View, i: nat)
    requires StructOk(v) && i < LogicalLen(v)
    ensures LogicalName(v, i).Some?
  {
    assert BaseRowOk(v.base, i);
  }

  lemma {:induction false} FilterBaseChildrenIs(v: View, index: nat, children: seq<nat>)
    requires Ascending(children)
    ensures Ascending(FilterBaseChildren(v, index, children))
    ensures forall c :: c in FilterBaseChildren(v, index, children) <==>
              c in children && KeepsBaseChild(v, index, c)
  {
    if children != [] {
      var init := children[..|children| - 1];
      FilterBaseChildrenIs(v, index, init);
      forall c ensures c in children <==> c in init || c == children[|children| - 1] {}
      forall k | 0 <= k < |FilterBaseChildren(v, index, init)|
        ensures FilterBaseChildren(v, index, init)[k] < children[|children| - 1]
      {
        assert FilterBaseChildren(v, index, init)[k] in init;
      }
    }
  }

  lemma BaseKidsIs(v: View, p: nat)
    requires StructOk(v)
    ensures Ascending(BaseKids(v, p))
    ensures forall c: nat :: c in BaseKids(v, p) <==>
              c < BaseLen(v) && p < BaseLen(v) && v.base.records[c].parentIdx == p && KeepsBaseChild(v, p, c)
  {
    if p < BaseLen(v) {
      assert CsrRowOk(v.base, p);
      RowMembers(v.base.records, p, BaseLen(v));
      FilterBaseChildrenIs(v, p, Row(v.base.records, p));
    }
  }

  /**
   The three loops together list exactly the records that are not deleted and
   whose logical parent is `p`, in every state that events can reach.
   */
  lemma ChildrenAreParentInverse(v: View, p: nat, c: nat)
    requires StructOk(v)
    ensures c in LogicalChildren(v, p) <==>
            c < LogicalLen(v) && c !in v.delta.deleted && LogicalParent(v, c) == Some(p)
  {
    BaseKidsIs(v, p);
    assert DeltaRowOk(v, c) && BaseRowOk(v.base, c);
  }

  /** Each child is listed once, except that a moved overlay record is listed twice. */
  lemma ChildMultiplicity(v: View, p: nat, c: nat)
    requires StructOk(v) && c in LogicalChildren(v, p)
    ensures multiset(LogicalChildren(v, p))[c] == if c >= BaseLen(v) && c in v.delta.moved then 2 else 1
  {
    BaseKidsIs(v, p);
    ChildrenAreParentInverse(v, p, c);
    DistinctOnce(BaseKids(v, p), c);
    DistinctOnce(MovedKids(v, p), c);
    DistinctOnce(InsertedKids(v, p), c);
  }
}
