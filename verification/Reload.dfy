/**
 What a restart finds: a cache holds the base columns, so it restores an index
 exactly as it was without its overlay.
 */
module Reload {
  import opened Basics
  import opened Records
  import opened Overlay
  import opened VolumeTree
  import opened Refinement
  import opened BatchOrder
  import opened Cache

  function Plain(b: Base): View { View(b, EMPTY_DELTA) }

  lemma SameBaseLooksUp(a: Base, b: Base, n: nat)
    requires SameBase(a, b)
    ensures Lookup(Plain(a), n) == Lookup(Plain(b), n)
  {
    assert SameLookup(a, b, n);
  }

  lemma SameBaseIsSound(a: Base, b: Base)
    requires SameBase(a, b) && Inv(Plain(b))
    ensures Inv(Plain(a))
  {
    var v, w := Plain(a), Plain(b);
    forall i: nat ensures BaseRowOk(a, i) && CsrRowOk(a, i) && BaseRefOk(a, i) {
      assert BaseRowOk(b, i) && CsrRowOk(b, i) && BaseRefOk(b, i) && SameLookup(a, b, i);
    }
    forall i: nat ensures RecordOk(v, i) && ParentLive(v, i) {
      assert RecordOk(w, i) && ParentLive(w, i);
      SameBaseLooksUp(a, b, NumberAt(w, i));
    }
    forall n: nat ensures NumberOk(v, n) {
      assert NumberOk(w, n);
      SameBaseLooksUp(a, b, n);
    }
  }

  /** Equal columns and lookups show equal trees. */
  lemma SameBaseSameTree(a: Base, b: Base)
    requires SameBase(a, b) && Inv(Plain(b))
    ensures Inv(Plain(a)) && Abs(Plain(a)) == Abs(Plain(b))
  {
    SameBaseIsSound(a, b);
    forall n: nat
      ensures n in Abs(Plain(b)) <==> Lookup(Plain(a), n).Some?
      ensures n in Abs(Plain(b)) ==>
                Lookup(Plain(a), n).value < LogicalLen(Plain(a))
                && Abs(Plain(b))[n] == NodeAt(Plain(a), Lookup(Plain(a), n).value)
    {
      AbsHas(Plain(b), n);
      SameBaseLooksUp(a, b, n);
    }
    AbsEquals(Plain(a), Abs(Plain(b)));
  }

  /** A drive whose overlay is empty comes back from its cache with its tree and its journal position. */
  lemma RestartRestoresTree(b: Base, volumeSerial: nat, cursor: UsnCursor)
    requires FileFits(b, volumeSerial, cursor) && Inv(Plain(b))
    ensures WriteTo(b, volumeSerial, cursor).Ok?
    ensures var r := ParseCache(WriteTo(b, volumeSerial, cursor).value, volumeSerial);
            && r.Ok? && r.value.cursor == cursor
            && Inv(Plain(r.value.base)) && Abs(Plain(r.value.base)) == Abs(Plain(b))
  {
    CacheRoundTrip(b, volumeSerial, cursor, volumeSerial);
    SameBaseSameTree(ParseCache(WriteTo(b, volumeSerial, cursor).value, volumeSerial).value.base, b);
  }

  /** The tree that a restart finds after the index was written at this cursor. */
  ghost function Restored(v: View, volumeSerial: nat, cursor: UsnCursor): Option<Tree> {
    match WriteTo(v.base, volumeSerial, cursor)
    case Err(_) => None
    case Ok(data) =>
      match ParseCache(data, volumeSerial)
      case Err(_) => None
      case Ok(cached) => Some(Abs(Plain(cached.base)))
  }

  lemma RestoredIsBase(v: View, volumeSerial: nat, cursor: UsnCursor)
    requires FileFits(v.base, volumeSerial, cursor) && Inv(Plain(v.base))
    ensures Restored(v, volumeSerial, cursor) == Some(Abs(Plain(v.base)))
  {
    RestartRestoresTree(v.base, volumeSerial, cursor);
  }

  /**
   Written at the cursor of the events applied since the base was built, the cache
   restores the drive if and only if those events left the plain tree unchanged.
   The journal is not read again from before that cursor.
   */
  lemma RestartRestoresIffNothingChanged(b: Base, events: seq<UsnEvent>, volumeSerial: nat, cursor: UsnCursor)
    requires FileFits(b, volumeSerial, cursor) && Inv(Plain(b)) && |b.records| + |events| <= PARENT_NONE
    requires Orderly(Abs(Plain(b)), events)
    ensures Restored(ApplyEvents(Plain(b), events), volumeSerial, cursor) == Some(Abs(ApplyEvents(Plain(b), events))) <==>
            TreeApplyAll(Abs(Plain(b)), events) == Abs(Plain(b))
  {
    OrderlyRefines(Plain(b), events);
    ApplyEventsLeaveBase(Plain(b), events);
    RestoredIsBase(ApplyEvents(Plain(b), events), volumeSerial, cursor);
  }

  lemma {:induction false} ApplyEventsLeaveBase(v: View, events: seq<UsnEvent>)
    ensures ApplyEvents(v, events).base == v.base
  {
    if events != [] {
      ApplyEventsLeaveBase(v, events[..|events| - 1]);
    }
  }

  /** A create of a fresh number and a delete of a known one both change the tree. */
  lemma NewEventShows(t: Tree, e: UsnEvent)
    requires WellFormed(t, e)
    requires (e.kind == Create && HasName(e)) || (e.kind == Delete && MftRecordNumber(e.fileRef) in t)
    ensures TreeApply(t, e) != t
  {
    assert MftRecordNumber(e.fileRef) in TreeApply(t, e) <==> MftRecordNumber(e.fileRef) !in t;
  }

  lemma ApplyEventLeavesBase(v: View, e: UsnEvent)
    ensures ApplyEvent(v, e).base == v.base
  {}

  /** So a create or delete since the last compaction is lost. */
  lemma RestartLosesNewEvent(b: Base, e: UsnEvent, volumeSerial: nat, cursor: UsnCursor)
    requires FileFits(b, volumeSerial, cursor) && Inv(Plain(b)) && |b.records| < PARENT_NONE
    requires WellFormed(Abs(Plain(b)), e)
    requires (e.kind == Create && HasName(e)) || (e.kind == Delete && MftRecordNumber(e.fileRef) in Abs(Plain(b)))
    ensures Restored(ApplyEvent(Plain(b), e), volumeSerial, cursor).Some?
    ensures Restored(ApplyEvent(Plain(b), e), volumeSerial, cursor).value != Abs(ApplyEvent(Plain(b), e))
  {
    var v := ApplyEvent(Plain(b), e);
    EventRefines(Plain(b), e);
    ApplyEventLeavesBase(Plain(b), e);
    RestoredIsBase(v, volumeSerial, cursor);
    NewEventShows(Abs(Plain(b)), e);
  }

  // ----- Which overlay entries a restart loses -----

  /** An index with an empty overlay always comes back: the test to make before writing. */
  lemma RestartIsSafeWhenEmpty(v: View, volumeSerial: nat, cursor: UsnCursor)
    requires FileFits(v.base, volumeSerial, cursor) && Inv(v) && v.delta.IsEmpty()
    ensures Restored(v, volumeSerial, cursor) == Some(Abs(v))
  {
    assert v == Plain(v.base);
    RestoredIsBase(v, volumeSerial, cursor);
  }

  /** A base row that the overlay renames or moves to something else, or deletes for good. */
  ghost predicate BaseEntryShows(v: View, i: nat) {
    if i in v.delta.deleted then Lookup(v, NumberAt(v, i)).None?
    else
      || (i in v.delta.renamed && LogicalName(Plain(v.base), i) != Some(v.delta.renamed[i]))
      || (i in v.delta.moved && ParentNumber(Plain(v.base), i) != Some(NumberAt(v, v.delta.moved[i])))
  }

  /** A live overlay record under a number that the base lacks or shows otherwise. */
  ghost predicate InsertedEntryShows(v: View, i: nat) {
    i !in v.delta.deleted &&
    match Lookup(Plain(v.base), NumberAt(v, i))
    case None => true
    case Some(row) => NodeAt(Plain(v.base), row) != NodeAt(v, i)
  }

  /** The overlay entries of record `i` change the tree. */
  ghost predicate EntryShows(v: View, i: nat) {
    i < LogicalLen(v) && if i < BaseLen(v) then BaseEntryShows(v, i) else InsertedEntryShows(v, i)
  }

  lemma BaseRowIsThere(v: View, i: nat)
    requires Inv(v) && Inv(Plain(v.base)) && i < BaseLen(v)
    ensures NumberAt(v, i) in Abs(Plain(v.base)) && Abs(Plain(v.base))[NumberAt(v, i)] == NodeAt(Plain(v.base), i)
    ensures Live(v, i) <==> i !in v.delta.deleted
  {
    assert BaseRowOk(v.base, i);
    AbsAt(Plain(v.base), i);
    assert NumberAt(Plain(v.base), i) == NumberAt(v, i);
    LiveIsNotDeleted(v, i);
  }

  /** A live base row reads differently exactly when its rename or move says something new. */
  lemma BaseRowReads(v: View, i: nat)
    requires Inv(v) && Inv(Plain(v.base)) && i < BaseLen(v) && i !in v.delta.deleted
    ensures NodeAt(v, i) != NodeAt(Plain(v.base), i) <==> BaseEntryShows(v, i)
  {
    var p := Plain(v.base);
    assert DeltaRowOk(v, i) && BaseRowOk(v.base, i);
    NamePresent(p, i);
    assert i !in v.delta.moved ==> ParentNumber(v, i) == ParentNumber(p, i) by {
      if i !in v.delta.moved && StoredParent(p, i).Some? { StoredParentInRange(p, i); }
    }
  }

  lemma BaseEntryIs(v: View, i: nat)
    requires Inv(v) && Inv(Plain(v.base)) && i < BaseLen(v)
    ensures var n := NumberAt(v, i);
            && n in Abs(Plain(v.base))
            && (BaseEntryShows(v, i) <==>
                if i in v.delta.deleted then n !in Abs(v) else n in Abs(v) && Abs(v)[n] != Abs(Plain(v.base))[n])
  {
    BaseRowIsThere(v, i);
    AbsHas(v, NumberAt(v, i));
    if i !in v.delta.deleted {
      BaseRowReads(v, i);
      AbsAt(v, i);
    }
  }

  lemma InsertedEntryIs(v: View, i: nat)
    requires Inv(v) && Inv(Plain(v.base)) && BaseLen(v) <= i < LogicalLen(v) && i !in v.delta.deleted
    ensures var n := NumberAt(v, i);
            n in Abs(v) && (InsertedEntryShows(v, i) <==> n !in Abs(Plain(v.base)) || Abs(Plain(v.base))[n] != Abs(v)[n])
  {
    LiveIsNotDeleted(v, i);
    AbsAt(v, i);
    AbsHas(Plain(v.base), NumberAt(v, i));
  }

  /** Without an entry that shows, a number reads the same with and without the overlay. */
  lemma NothingShows(v: View, n: nat)
    requires Inv(v) && Inv(Plain(v.base))
    requires forall i: nat :: !EntryShows(v, i)
    ensures NodeIn(Abs(v), n) == NodeIn(Abs(Plain(v.base)), n)
  {
    AbsHas(v, n);
    AbsHas(Plain(v.base), n);
    if n in Abs(v) {
      var i := Lookup(v, n).value;
      assert !EntryShows(v, i);
      LiveIsNotDeleted(v, i);
      if i < BaseLen(v) {
        BaseEntryIs(v, i);
        BaseRowIsThere(v, i);
      } else {
        InsertedEntryIs(v, i);
      }
    } else if n in Abs(Plain(v.base)) {
      var i := Lookup(Plain(v.base), n).value;
      assert NumberAt(v, i) == n && !EntryShows(v, i);
      BaseEntryIs(v, i);
      BaseRowIsThere(v, i);
      if Live(v, i) { AbsAt(v, i); }
    }
  }

  lemma EntryThatShows(v: View, i: nat)
    requires Inv(v) && Inv(Plain(v.base)) && EntryShows(v, i)
    ensures Abs(v) != Abs(Plain(v.base))
  {
    if i < BaseLen(v) {
      BaseEntryIs(v, i);
      BaseRowIsThere(v, i);
    } else {
      InsertedEntryIs(v, i);
    }
  }

  lemma SameTreeIffNoEntryShows(v: View)
    requires Inv(v) && Inv(Plain(v.base))
    ensures Abs(v) == Abs(Plain(v.base)) <==> forall i: nat :: !EntryShows(v, i)
  {
    if i: nat :| EntryShows(v, i) {
      EntryThatShows(v, i);
    } else {
      forall n: nat ensures NodeIn(Abs(v), n) == NodeIn(Abs(Plain(v.base)), n) {
        NothingShows(v, n);
      }
      TreesEqual(Abs(v), Abs(Plain(v.base)));
    }
  }

  /**
   Whatever the overlay holds, the cache restores the index if and only if no
   entry shows: no base row deleted for good, renamed or moved to something else,
   and no overlay record that the base does not already show.
   */
  lemma RestartRestoresIffNoEntryShows(v: View, volumeSerial: nat, cursor: UsnCursor)
    requires FileFits(v.base, volumeSerial, cursor) && Inv(v) && Inv(Plain(v.base))
    ensures Restored(v, volumeSerial, cursor) == Some(Abs(v)) <==> forall i: nat :: !EntryShows(v, i)
  {
    RestoredIsBase(v, volumeSerial, cursor);
    SameTreeIffNoEntryShows(v);
  }
}
