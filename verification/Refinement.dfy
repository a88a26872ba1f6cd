/** Base plus overlay refines the plain tree: every well-formed event is one map update. */
module Refinement {
  import opened Basics
  import opened Records
  import opened Overlay
  import opened VolumeTree

  predicate Live(v: View, i: nat) { !LogicalIsDeleted(v, i) }

  function FileRefAt(v: View, i: nat): FileRef {
    if i < BaseLen(v) then v.base.records[i].fileRef
    else match InsertedAt(v, i) case Some(rec) => rec.fileRef case None => FileRef(0, 0)
  }

  function NumberAt(v: View, i: nat): nat { MftRecordNumber(FileRefAt(v, i)) }

  /** A parent stored as an index, by a move or in the base. */
  function StoredParent(v: View, i: nat): Option<nat> {
    if i in v.delta.moved then
      if v.delta.moved[i] == PARENT_NONE then None else Some(v.delta.moved[i])
    else if i < BaseLen(v) then
      if v.base.records[i].parentIdx == PARENT_NONE then None else Some(v.base.records[i].parentIdx)
    else None
  }

  /** The parent of a record as a record number, whether stored as index or as reference. */
  function ParentNumber(v: View, i: nat): Option<nat> {
    if StoredParent(v, i).Some? then Some(NumberAt(v, StoredParent(v, i).value))
    else if i < BaseLen(v) || i in v.delta.moved then None
    else match InsertedAt(v, i) case Some(rec) => Some(MftRecordNumber(rec.parentRef)) case None => None
  }

  function NodeAt(v: View, i: nat): Node {
    var name := LogicalName(v, i);
    Node(if name.Some? then name.value else "", ParentNumber(v, i), LogicalIsDir(v, i))
  }

  function LiveNumbers(v: View): set<nat> {
    set i | 0 <= i < LogicalLen(v) && Live(v, i) :: NumberAt(v, i)
  }

  /** The abstract tree of an index: what each live number's lookup finds. */
  function Abs(v: View): Tree {
    map n | n in LiveNumbers(v) && Lookup(v, n).Some? :: NodeAt(v, Lookup(v, n).value)
  }

  // ----- The invariant that well-formed events keep -----

  /** A live record is found under its own number. */
  ghost predicate RecordOk(v: View, i: nat) {
    i < LogicalLen(v) && Live(v, i) ==> Lookup(v, NumberAt(v, i)) == Some(i)
  }

  /** A parent that a live record stores by index is live. */
  ghost predicate ParentLive(v: View, i: nat) {
    i < LogicalLen(v) && Live(v, i) && StoredParent(v, i).Some? ==> Live(v, StoredParent(v, i).value)
  }

  /** A number is only ever resolved to a live record that carries it. */
  ghost predicate NumberOk(v: View, n: nat) {
    Lookup(v, n).Some? ==>
      var i := Lookup(v, n).value; i < LogicalLen(v) && Live(v, i) && NumberAt(v, i) == n
  }

  /** No event of the overlay carried a tombstone flag. */
  ghost predicate InsertedOk(v: View, k: nat) {
    k < |v.delta.inserted| ==> !HasTombstoneFlag(v.delta.inserted[k].flags)
  }

  /** Lookups and live records are inverse to each other. */
  ghost predicate Indexed(v: View) {
    && StructOk(v)
    && (forall k: nat :: InsertedOk(v, k))
    && (forall i: nat :: RecordOk(v, i))
    && (forall n: nat :: NumberOk(v, n))
  }

  ghost predicate Inv(v: View) { Indexed(v) && forall i: nat :: ParentLive(v, i) }

  lemma LiveIsNotDeleted(v: View, i: nat)
    requires StructOk(v)
    ensures Live(v, i) <==> i < LogicalLen(v) && i !in v.delta.deleted
  {
    assert BaseRowOk(v.base, i) && DeltaRowOk(v, i);
    if BaseLen(v) <= i < LogicalLen(v) { assert InsertedAt(v, i).Some?; }
  }

  lemma AbsHas(v: View, n: nat)
    requires Indexed(v)
    ensures n in Abs(v) <==> Lookup(v, n).Some?
    ensures n in Abs(v) ==>
              var i := Lookup(v, n).value;
              i < LogicalLen(v) && Live(v, i) && NumberAt(v, i) == n && Abs(v)[n] == NodeAt(v, i)
  {
    assert NumberOk(v, n);
    if Lookup(v, n).Some? {
      assert NumberAt(v, Lookup(v, n).value) in LiveNumbers(v);
    } else if n in LiveNumbers(v) {
      var i :| 0 <= i < LogicalLen(v) && Live(v, i) && NumberAt(v, i) == n;
      assert RecordOk(v, i);
    }
  }

  lemma AbsAt(v: View, i: nat)
    requires Indexed(v) && i < LogicalLen(v) && Live(v, i)
    ensures Lookup(v, NumberAt(v, i)) == Some(i)
    ensures NumberAt(v, i) in Abs(v) && Abs(v)[NumberAt(v, i)] == NodeAt(v, i)
  {
    assert RecordOk(v, i);
    AbsHas(v, NumberAt(v, i));
  }

  /** To compare trees, compare lookups and the records they find. */
  lemma AbsEquals(v: View, t: Tree)
    requires Indexed(v)
    requires forall n: nat :: n in t <==> Lookup(v, n).Some?
    requires forall n: nat :: n in t ==>
               Lookup(v, n).value < LogicalLen(v) && t[n] == NodeAt(v, Lookup(v, n).value)
    ensures Abs(v) == t
  {
    forall n ensures (n in Abs(v) <==> n in t) && (n in t ==> Abs(v)[n] == t[n]) {
      AbsHas(v, n);
    }
  }

  // ----- Delete -----

  lemma DeleteFrame(v: View, fileRef: FileRef, j: nat)
    requires StructOk(v) && StructOk(ApplyDelete(v, fileRef)) && RefLookup(v, fileRef).Some?
    requires j < LogicalLen(v)
    ensures var w := ApplyDelete(v, fileRef);
            && (Live(w, j) <==> Live(v, j) && j != RefLookup(v, fileRef).value)
            && NumberAt(w, j) == NumberAt(v, j) && StoredParent(w, j) == StoredParent(v, j)
            && NodeAt(w, j) == NodeAt(v, j)
  {}

  lemma DeleteKeepsIndexed(v: View, fileRef: FileRef)
    requires Indexed(v) && RefLookup(v, fileRef).Some?
    ensures Indexed(ApplyDelete(v, fileRef))
  {
    var n := MftRecordNumber(fileRef);
    var w := ApplyDelete(v, fileRef);
    ApplyDeleteKeepsDelta(v, fileRef);
    assert NumberOk(v, n);
    forall i: nat ensures RecordOk(w, i) {
      if i < LogicalLen(v) {
        DeleteFrame(v, fileRef, i);
        assert RecordOk(v, i);
      }
    }
    forall k: nat ensures InsertedOk(w, k) { assert InsertedOk(v, k); }
    forall m: nat ensures NumberOk(w, m) {
      assert NumberOk(v, m);
      if Lookup(v, m).Some? { DeleteFrame(v, fileRef, Lookup(v, m).value); }
    }
  }

  lemma DeleteKeepsInv(v: View, fileRef: FileRef)
    requires Inv(v) && RefLookup(v, fileRef).Some?
    requires forall i :: 0 <= i < LogicalLen(v) && Live(v, i) && i != RefLookup(v, fileRef).value ==>
               StoredParent(v, i) != RefLookup(v, fileRef)
    ensures Inv(ApplyDelete(v, fileRef))
  {
    var w := ApplyDelete(v, fileRef);
    DeleteKeepsIndexed(v, fileRef);
    forall i: nat ensures ParentLive(w, i) {
      if i < LogicalLen(v) {
        DeleteFrame(v, fileRef, i);
        assert ParentLive(v, i);
        if StoredParent(v, i).Some? { StoredParentInRange(v, i); DeleteFrame(v, fileRef, StoredParent(v, i).value); }
      }
    }
  }

  lemma StoredParentInRange(v: View, i: nat)
    requires StructOk(v) && i < LogicalLen(v) && StoredParent(v, i).Some?
    ensures StoredParent(v, i).value < LogicalLen(v)
  {
    assert DeltaRowOk(v, i) && BaseRowOk(v.base, i);
  }

  /** A delete removes one entry of the tree, whatever lies below it. */
  lemma DeleteTracks(v: View, fileRef: FileRef)
    requires Indexed(v)
    ensures Indexed(ApplyDelete(v, fileRef))
    ensures Abs(ApplyDelete(v, fileRef)) == TreeDelete(Abs(v), MftRecordNumber(fileRef))
  {
    var n := MftRecordNumber(fileRef);
    var w := ApplyDelete(v, fileRef);
    AbsHas(v, n);
    if n in Abs(v) {
      DeleteKeepsIndexed(v, fileRef);
      forall m: nat ensures (m in TreeDelete(Abs(v), n) <==> Lookup(w, m).Some?)
        && (m in TreeDelete(Abs(v), n) ==>
              Lookup(w, m).value < LogicalLen(w) && TreeDelete(Abs(v), n)[m] == NodeAt(w, Lookup(w, m).value))
      {
        AbsHas(v, m);
        if m in Abs(v) { DeleteFrame(v, fileRef, Lookup(v, m).value); }
      }
      AbsEquals(w, TreeDelete(Abs(v), n));
    }
  }

  lemma DeleteRefines(v: View, fileRef: FileRef)
    requires Inv(v)
    requires MftRecordNumber(fileRef) in Abs(v) ==> Childless(Abs(v), MftRecordNumber(fileRef))
    ensures Inv(ApplyDelete(v, fileRef))
    ensures Abs(ApplyDelete(v, fileRef)) == TreeDelete(Abs(v), MftRecordNumber(fileRef))
  {
    var n := MftRecordNumber(fileRef);
    AbsHas(v, n);
    DeleteTracks(v, fileRef);
    if n in Abs(v) {
      forall i | 0 <= i < LogicalLen(v) && Live(v, i) && i != Lookup(v, n).value
        ensures StoredParent(v, i) != Lookup(v, n)
      {
        AbsAt(v, i);
        assert NumberAt(v, i) != n;
      }
      DeleteKeepsInv(v, fileRef);
    }
  }

  // ----- Create -----

  lemma CreateFrame(v: View, e: UsnEvent, i: nat)
    requires StructOk(v) && StructOk(ApplyCreate(v, e)) && i < LogicalLen(v)
    ensures var w := ApplyCreate(v, e);
            && (Live(w, i) <==> Live(v, i))
            && NumberAt(w, i) == NumberAt(v, i) && StoredParent(w, i) == StoredParent(v, i)
            && NodeAt(w, i) == NodeAt(v, i)
  {
    if StoredParent(v, i).Some? { StoredParentInRange(v, i); }
  }

  /** The new record of a create. */
  lemma CreateAdds(v: View, e: UsnEvent)
    requires StructOk(v) && StructOk(ApplyCreate(v, e)) && HasName(e)
    ensures var w := ApplyCreate(v, e);
            var i := LogicalLen(v);
            && LogicalLen(w) == i + 1 && Live(w, i) && NumberAt(w, i) == MftRecordNumber(e.fileRef)
            && StoredParent(w, i) == None
            && NodeAt(w, i) == TreeCreate(map[], e)[MftRecordNumber(e.fileRef)]
  {
    assert DeltaRowOk(v, LogicalLen(v));
  }

  lemma CreateKeepsIndexed(v: View, e: UsnEvent)
    requires Indexed(v) && StructOk(ApplyCreate(v, e)) && HasName(e) && EventFlagsOk(e)
    requires RefLookup(v, e.fileRef).None?
    ensures Indexed(ApplyCreate(v, e))
  {
    var w := ApplyCreate(v, e);
    CreateAdds(v, e);
    forall i: nat ensures RecordOk(w, i) {
      if i < LogicalLen(v) {
        CreateFrame(v, e, i);
        assert RecordOk(v, i);
      }
    }
    forall k: nat ensures InsertedOk(w, k) { assert InsertedOk(v, k); }
    forall m: nat ensures NumberOk(w, m) {
      assert NumberOk(v, m);
      if Lookup(v, m).Some? { CreateFrame(v, e, Lookup(v, m).value); }
    }
  }

  lemma CreateTracks(v: View, e: UsnEvent)
    requires Indexed(v) && StructOk(ApplyCreate(v, e)) && EventFlagsOk(e)
    requires HasName(e) ==> MftRecordNumber(e.fileRef) !in Abs(v)
    ensures Indexed(ApplyCreate(v, e))
    ensures Abs(ApplyCreate(v, e)) == TreeCreate(Abs(v), e)
  {
    if HasName(e) {
      var w := ApplyCreate(v, e);
      var t := TreeCreate(Abs(v), e);
      AbsHas(v, MftRecordNumber(e.fileRef));
      CreateKeepsIndexed(v, e);
      CreateAdds(v, e);
      forall m: nat ensures (m in t <==> Lookup(w, m).Some?)
        && (m in t ==> Lookup(w, m).value < LogicalLen(w) && t[m] == NodeAt(w, Lookup(w, m).value))
      {
        AbsHas(v, m);
        if m in Abs(v) { CreateFrame(v, e, Lookup(v, m).value); }
      }
      AbsEquals(w, t);
    }
  }

  lemma CreateKeepsParents(v: View, e: UsnEvent)
    requires Inv(v) && StructOk(ApplyCreate(v, e))
    ensures forall i: nat :: ParentLive(ApplyCreate(v, e), i)
  {
    var w := ApplyCreate(v, e);
    if HasName(e) { CreateAdds(v, e); }
    forall i: nat ensures ParentLive(w, i) {
      assert ParentLive(v, i);
      if i < LogicalLen(v) {
        CreateFrame(v, e, i);
        if StoredParent(v, i).Some? { StoredParentInRange(v, i); CreateFrame(v, e, StoredParent(v, i).value); }
      }
    }
  }

  lemma CreateRefines(v: View, e: UsnEvent)
    requires Inv(v) && StructOk(ApplyCreate(v, e)) && EventFlagsOk(e)
    requires HasName(e) ==> MftRecordNumber(e.fileRef) !in Abs(v)
    ensures Inv(ApplyCreate(v, e))
    ensures Abs(ApplyCreate(v, e)) == TreeCreate(Abs(v), e)
  {
    CreateTracks(v, e);
    CreateKeepsParents(v, e);
  }

  // ----- Rename and move -----

  lemma RenameFrame(v: View, i: nat, name: string, j: nat)
    requires StructOk(v) && StructOk(SetLogicalName(v, i, name)) && i < LogicalLen(v) && j < LogicalLen(v)
    ensures var w := SetLogicalName(v, i, name);
            && LogicalLen(w) == LogicalLen(v)
            && (Live(w, j) <==> Live(v, j))
            && NumberAt(w, j) == NumberAt(v, j) && StoredParent(w, j) == StoredParent(v, j)
            && NodeAt(w, j) == if j == i then NodeAt(v, j).(name := name) else NodeAt(v, j)
  {
    assert DeltaRowOk(v, i) && DeltaRowOk(v, j);
    if StoredParent(v, j).Some? { StoredParentInRange(v, j); }
  }

  lemma RenameKeepsIndexed(v: View, i: nat, name: string)
    requires Indexed(v) && i < LogicalLen(v)
    ensures Indexed(SetLogicalName(v, i, name))
  {
    var w := SetLogicalName(v, i, name);
    SetLogicalNameKeepsDelta(v, i, name);
    forall j: nat ensures RecordOk(w, j) {
      assert RecordOk(v, j);
      if j < LogicalLen(v) { RenameFrame(v, i, name, j); }
    }
    forall k: nat ensures InsertedOk(w, k) { assert InsertedOk(v, k); }
    forall m: nat ensures NumberOk(w, m) {
      assert NumberOk(v, m);
      if Lookup(v, m).Some? { RenameFrame(v, i, name, Lookup(v, m).value); }
    }
  }

  lemma RenamePartTracks(v: View, i: nat, e: UsnEvent)
    requires Indexed(v) && RefLookup(v, e.fileRef) == Some(i)
    ensures Indexed(RenamePart(v, i, e))
    ensures MftRecordNumber(e.fileRef) in Abs(v)
    ensures Abs(RenamePart(v, i, e)) == TreeRename(Abs(v), MftRecordNumber(e.fileRef), e)
    ensures Lookup(RenamePart(v, i, e), MftRecordNumber(e.fileRef)) == Some(i)
  {
    var n := MftRecordNumber(e.fileRef);
    AbsHas(v, n);
    if HasName(e) {
      var name := e.name.value;
      var w := SetLogicalName(v, i, name);
      var t := TreeRename(Abs(v), n, e);
      RenameKeepsIndexed(v, i, name);
      forall m: nat ensures (m in t <==> Lookup(w, m).Some?)
        && (m in t ==> Lookup(w, m).value < LogicalLen(w) && t[m] == NodeAt(w, Lookup(w, m).value))
      {
        AbsHas(v, m);
        if m in Abs(v) { RenameFrame(v, i, name, Lookup(v, m).value); }
      }
      AbsEquals(w, t);
    }
  }

  lemma MoveFrame(v: View, i: nat, p: nat, j: nat)
    requires StructOk(v) && StructOk(SetLogicalParent(v, i, p))
    requires i < LogicalLen(v) && p < LogicalLen(v) && j < LogicalLen(v)
    ensures var w := SetLogicalParent(v, i, p);
            && LogicalLen(w) == LogicalLen(v)
            && (Live(w, j) <==> Live(v, j))
            && NumberAt(w, j) == NumberAt(v, j)
            && StoredParent(w, j) == (if j == i then Some(p) else StoredParent(v, j))
            && NodeAt(w, j) == if j == i then NodeAt(v, j).(parent := Some(NumberAt(v, p))) else NodeAt(v, j)
  {
    if StoredParent(v, j).Some? { StoredParentInRange(v, j); }
  }

  lemma MoveKeepsIndexed(v: View, i: nat, p: nat)
    requires Indexed(v) && i < LogicalLen(v) && p < LogicalLen(v)
    ensures Indexed(SetLogicalParent(v, i, p))
  {
    var w := SetLogicalParent(v, i, p);
    SetLogicalParentKeepsDelta(v, i, p);
    forall j: nat ensures RecordOk(w, j) {
      assert RecordOk(v, j);
      if j < LogicalLen(v) { MoveFrame(v, i, p, j); }
    }
    forall k: nat ensures InsertedOk(w, k) { assert InsertedOk(v, k); }
    forall m: nat ensures NumberOk(w, m) {
      assert NumberOk(v, m);
      if Lookup(v, m).Some? { MoveFrame(v, i, p, Lookup(v, m).value); }
    }
  }

  lemma MovePartTracks(v: View, i: nat, e: UsnEvent)
    requires Indexed(v) && RefLookup(v, e.fileRef) == Some(i)
    ensures Indexed(MovePart(v, i, e))
    ensures MftRecordNumber(e.fileRef) in Abs(v)
    ensures Abs(MovePart(v, i, e)) == TreeMove(Abs(v), MftRecordNumber(e.fileRef), e)
  {
    var n := MftRecordNumber(e.fileRef);
    AbsHas(v, n);
    if e.parentRef.Some? {
      AbsHas(v, MftRecordNumber(e.parentRef.value));
      if RefLookup(v, e.parentRef.value).Some? {
        var p := RefLookup(v, e.parentRef.value).value;
        var w := SetLogicalParent(v, i, p);
        var t := TreeMove(Abs(v), n, e);
        MoveKeepsIndexed(v, i, p);
        forall m: nat ensures (m in t <==> Lookup(w, m).Some?)
          && (m in t ==> Lookup(w, m).value < LogicalLen(w) && t[m] == NodeAt(w, Lookup(w, m).value))
        {
          AbsHas(v, m);
          if m in Abs(v) { MoveFrame(v, i, p, Lookup(v, m).value); }
        }
        AbsEquals(w, t);
      }
    }
  }

  lemma RenameMoveTracks(v: View, e: UsnEvent)
    requires Indexed(v) && LogicalLen(v) < PARENT_NONE && EventFlagsOk(e)
    ensures Indexed(ApplyRenameMove(v, e))
    ensures Abs(ApplyRenameMove(v, e)) == TreeRenameMove(Abs(v), e)
  {
    AbsHas(v, MftRecordNumber(e.fileRef));
    match RefLookup(v, e.fileRef) {
      case None =>
        ApplyCreateKeepsDelta(v, e);
        CreateTracks(v, e);
      case Some(i) =>
        RenamePartTracks(v, i, e);
        MovePartTracks(RenamePart(v, i, e), i, e);
    }
  }

  /** Renaming a found record leaves all parents; moving it stores a parent that is live. */
  lemma RenamePartParents(v: View, i: nat, e: UsnEvent, j: nat)
    requires Indexed(v) && RefLookup(v, e.fileRef) == Some(i) && j < LogicalLen(v)
    ensures var w := RenamePart(v, i, e);
            && LogicalLen(w) == LogicalLen(v) && (Live(w, j) <==> Live(v, j))
            && NumberAt(w, j) == NumberAt(v, j) && StoredParent(w, j) == StoredParent(v, j)
            && w.delta.refOverrides == v.delta.refOverrides && w.base == v.base
  {
    LookupInRange(v, MftRecordNumber(e.fileRef));
    if HasName(e) {
      SetLogicalNameKeepsDelta(v, i, e.name.value);
      RenameFrame(v, i, e.name.value, j);
    }
  }

  lemma MovePartParents(v: View, i: nat, e: UsnEvent, j: nat)
    requires Indexed(v) && RefLookup(v, e.fileRef) == Some(i) && j < LogicalLen(v)
    ensures var w := MovePart(v, i, e);
            && LogicalLen(w) == LogicalLen(v) && (Live(w, j) <==> Live(v, j)) && NumberAt(w, j) == NumberAt(v, j)
            && (StoredParent(w, j) == StoredParent(v, j)
                || (j == i && StoredParent(w, j).Some? && StoredParent(w, j).value < LogicalLen(v)
                    && Live(v, StoredParent(w, j).value)))
  {
    LookupInRange(v, MftRecordNumber(e.fileRef));
    if e.parentRef.Some? && RefLookup(v, e.parentRef.value).Some? {
      var p := RefLookup(v, e.parentRef.value).value;
      assert NumberOk(v, MftRecordNumber(e.parentRef.value));
      SetLogicalParentKeepsDelta(v, i, p);
      MoveFrame(v, i, p, j);
    }
  }

  lemma FoundParents(v: View, i: nat, e: UsnEvent, j: nat)
    requires Indexed(v) && RefLookup(v, e.fileRef) == Some(i) && j < LogicalLen(v)
    ensures var w := ApplyRenameMove(v, e);
            && LogicalLen(w) == LogicalLen(v) && (Live(w, j) <==> Live(v, j)) && NumberAt(w, j) == NumberAt(v, j)
            && (StoredParent(w, j) == StoredParent(v, j)
                || (j == i && StoredParent(w, j).Some? && StoredParent(w, j).value < LogicalLen(v)
                    && Live(v, StoredParent(w, j).value)))
  {
    var r := RenamePart(v, i, e);
    RenamePartTracks(v, i, e);
    RenamePartParents(v, i, e, j);
    MovePartParents(r, i, e, j);
    if StoredParent(ApplyRenameMove(v, e), j) != StoredParent(v, j) {
      RenamePartParents(v, i, e, StoredParent(ApplyRenameMove(v, e), j).value);
    }
  }

  lemma RenameMoveRefines(v: View, e: UsnEvent)
    requires Inv(v) && LogicalLen(v) < PARENT_NONE && EventFlagsOk(e)
    ensures Inv(ApplyRenameMove(v, e))
    ensures Abs(ApplyRenameMove(v, e)) == TreeRenameMove(Abs(v), e)
  {
    RenameMoveTracks(v, e);
    match RefLookup(v, e.fileRef) {
      case None =>
        ApplyCreateKeepsDelta(v, e);
        CreateKeepsParents(v, e);
      case Some(i) => FoundKeepsParents(v, i, e);
    }
  }

  lemma FoundKeepsParents(v: View, i: nat, e: UsnEvent)
    requires Inv(v) && RefLookup(v, e.fileRef) == Some(i)
    ensures forall j: nat :: ParentLive(ApplyRenameMove(v, e), j)
  {
    var w := ApplyRenameMove(v, e);
    LookupInRange(v, MftRecordNumber(e.fileRef));
    forall j: nat ensures ParentLive(w, j) {
      assert ParentLive(v, j);
      FoundParents(v, i, e, i);
      if j < LogicalLen(v) {
        FoundParents(v, i, e, j);
        if StoredParent(v, j).Some? { StoredParentInRange(v, j); FoundParents(v, i, e, StoredParent(v, j).value); }
        if StoredParent(w, j).Some? && StoredParent(w, j) != StoredParent(v, j) {
          FoundParents(v, i, e, StoredParent(w, j).value);
        }
      }
    }
  }

  // ----- The refinement theorem -----

  /** What the lookups need of an event: creates are fresh. */
  ghost predicate Acceptable(t: Tree, e: UsnEvent) {
    EventFlagsOk(e) && (e.kind == Create && HasName(e) ==> MftRecordNumber(e.fileRef) !in t)
  }

  /** One event updates the abstract tree by one map operation, and lookups stay inverse to live records. */
  lemma EventTracks(v: View, e: UsnEvent)
    requires Indexed(v) && LogicalLen(v) < PARENT_NONE && Acceptable(Abs(v), e)
    ensures Indexed(ApplyEvent(v, e))
    ensures Abs(ApplyEvent(v, e)) == TreeApply(Abs(v), e)
  {
    match e.kind {
      case Delete => DeleteTracks(v, e.fileRef);
      case Create =>
        ApplyCreateKeepsDelta(v, e);
        CreateTracks(v, e);
      case Rename => RenameMoveTracks(v, e);
      case Move => RenameMoveTracks(v, e);
      case Metadata =>
    }
  }

  /** One well-formed event also keeps stored parents live. */
  lemma EventRefines(v: View, e: UsnEvent)
    requires Inv(v) && LogicalLen(v) < PARENT_NONE
    requires WellFormed(Abs(v), e)
    ensures Inv(ApplyEvent(v, e))
    ensures Abs(ApplyEvent(v, e)) == TreeApply(Abs(v), e)
  {
    match e.kind {
      case Delete => DeleteRefines(v, e.fileRef);
      case Create =>
        ApplyCreateKeepsDelta(v, e);
        CreateRefines(v, e);
      case Rename => RenameMoveRefines(v, e);
      case Move => RenameMoveRefines(v, e);
      case Metadata =>
    }
  }

  /** Any well-formed run of events is the fold of its map updates. */
  lemma {:induction false} EventsRefine(v: View, events: seq<UsnEvent>)
    requires Inv(v) && LogicalLen(v) + |events| <= PARENT_NONE
    requires WellFormedAll(Abs(v), events)
    ensures Inv(ApplyEvents(v, events))
    ensures Abs(ApplyEvents(v, events)) == TreeApplyAll(Abs(v), events)
    ensures LogicalLen(ApplyEvents(v, events)) <= LogicalLen(v) + |events|
  {
    if events != [] {
      var init := events[..|events| - 1];
      EventsRefine(v, init);
      EventRefines(ApplyEvents(v, init), events[|events| - 1]);
      ApplyEventKeepsStruct(ApplyEvents(v, init), events[|events| - 1]);
    }
  }

  // ----- Exactly when the code keeps the invariant -----

  /** A create keeps lookups inverse to live records if and only if its number was not live. */
  lemma CreateKeepsInvIffFresh(v: View, e: UsnEvent)
    requires Inv(v) && EventFlagsOk(e) && LogicalLen(v) < PARENT_NONE && HasName(e)
    ensures Inv(ApplyCreate(v, e)) <==> MftRecordNumber(e.fileRef) !in Abs(v)
  {
    var n := MftRecordNumber(e.fileRef);
    var w := ApplyCreate(v, e);
    ApplyCreateKeepsDelta(v, e);
    AbsHas(v, n);
    if n in Abs(v) {
      var older := Lookup(v, n).value;
      CreateFrame(v, e, older);
      assert !RecordOk(w, older);
    } else {
      CreateRefines(v, e);
    }
  }

  /** A delete keeps stored parents live if and only if no other live record stores this one as its parent. */
  lemma DeleteKeepsInvIffUnreferenced(v: View, fileRef: FileRef)
    requires Inv(v) && RefLookup(v, fileRef).Some?
    ensures Inv(ApplyDelete(v, fileRef)) <==>
            forall i :: 0 <= i < LogicalLen(v) && Live(v, i) && i != RefLookup(v, fileRef).value ==>
              StoredParent(v, i) != RefLookup(v, fileRef)
  {
    var gone := RefLookup(v, fileRef).value;
    var w := ApplyDelete(v, fileRef);
    LookupInRange(v, MftRecordNumber(fileRef));
    if i :| 0 <= i < LogicalLen(v) && Live(v, i) && i != gone && StoredParent(v, i) == Some(gone) {
      ApplyDeleteKeepsDelta(v, fileRef);
      DeleteFrame(v, fileRef, i);
      DeleteFrame(v, fileRef, gone);
      assert !ParentLive(w, i);
    } else {
      DeleteKeepsInv(v, fileRef);
    }
  }
}
