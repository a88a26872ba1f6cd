/**
 The order of a batch. The event producer walks an unordered map of aggregated
 changes: a batch holds one event for each record number, in any order, so a
 child may come before its parent and a directory may go before its content.
 */
module BatchOrder {
  import opened Basics
  import opened Records
  import opened Overlay
  import opened VolumeTree
  import opened Refinement

  function NumberOf(e: UsnEvent): nat { MftRecordNumber(e.fileRef) }

  ghost predicate OneEach(events: seq<UsnEvent>) {
    forall j, k :: 0 <= j < k < |events| ==> NumberOf(events[j]) != NumberOf(events[k])
  }

  predicate Moves(e: UsnEvent) { e.kind == Rename || e.kind == Move }

  /** The event makes its number appear or disappear. */
  predicate Changes(t: Tree, f: UsnEvent) {
    match f.kind
    case Delete => NumberOf(f) in t
    case Metadata => false
    case _ => HasName(f) && NumberOf(f) !in t
  }

  /** A known record moves below a number that appears or disappears in the same batch. */
  predicate MeetsParent(t: Tree, e: UsnEvent, f: UsnEvent) {
    && Moves(e) && NumberOf(e) in t && e.parentRef.Some? && MftRecordNumber(e.parentRef.value) == NumberOf(f)
    && Changes(t, f) && t[NumberOf(e)].parent != Some(NumberOf(f))
  }

  ghost predicate Unmet(t: Tree, events: seq<UsnEvent>) {
    forall j, k :: 0 <= j < |events| && 0 <= k < |events| ==> !MeetsParent(t, events[j], events[k])
  }

  // ----- What one event does to each number -----

  lemma OthersStay(t: Tree, e: UsnEvent, n: nat)
    requires n != NumberOf(e)
    ensures NodeIn(TreeApply(t, e), n) == NodeIn(t, n)
  {}

  /** What the event makes of its own number depends on that number and on whether its parent is there. */
  lemma OwnDepends(t: Tree, u: Tree, e: UsnEvent)
    requires NodeIn(t, NumberOf(e)) == NodeIn(u, NumberOf(e))
    requires Moves(e) && NumberOf(e) in t && e.parentRef.Some? && t[NumberOf(e)].parent != Some(MftRecordNumber(e.parentRef.value)) ==>
               (MftRecordNumber(e.parentRef.value) in t <==> MftRecordNumber(e.parentRef.value) in u)
    ensures NodeIn(TreeApply(t, e), NumberOf(e)) == NodeIn(TreeApply(u, e), NumberOf(e))
  {}

  lemma ChangesPresence(t: Tree, f: UsnEvent)
    ensures Changes(t, f) <==> (NumberOf(f) in t <==> NumberOf(f) !in TreeApply(t, f))
  {}

  lemma {:induction false} Untouched(t: Tree, events: seq<UsnEvent>, n: nat)
    requires forall k :: 0 <= k < |events| ==> NumberOf(events[k]) != n
    ensures NodeIn(TreeApplyAll(t, events), n) == NodeIn(t, n)
  {
    if events != [] {
      Untouched(t, events[..|events| - 1], n);
      OthersStay(TreeApplyAll(t, events[..|events| - 1]), events[|events| - 1], n);
    }
  }

  /** Where no move meets its parent, each event does what it would do alone. */
  lemma {:induction false} EachAsAlone(t: Tree, events: seq<UsnEvent>, k: nat)
    requires OneEach(events) && Unmet(t, events) && k < |events|
    ensures NodeIn(TreeApplyAll(t, events), NumberOf(events[k])) == NodeIn(TreeApply(t, events[k]), NumberOf(events[k]))
    decreases |events|, 0
  {
    var init, e := events[..|events| - 1], events[|events| - 1];
    var u := TreeApplyAll(t, init);
    if k < |init| {
      EachAsAlone(t, init, k);
      OthersStay(u, e, NumberOf(events[k]));
    } else {
      Untouched(t, init, NumberOf(e));
      if Moves(e) && NumberOf(e) in t && e.parentRef.Some? { ParentPresence(t, init, e); }
      OwnDepends(t, u, e);
    }
  }

  lemma ParentPresence(t: Tree, init: seq<UsnEvent>, e: UsnEvent)
    requires OneEach(init) && Unmet(t, init) && Moves(e) && NumberOf(e) in t && e.parentRef.Some?
    requires forall j :: 0 <= j < |init| ==> !MeetsParent(t, e, init[j])
    ensures t[NumberOf(e)].parent == Some(MftRecordNumber(e.parentRef.value)) ||
            (MftRecordNumber(e.parentRef.value) in t <==> MftRecordNumber(e.parentRef.value) in TreeApplyAll(t, init))
    decreases |init|, 1
  {
    var p := MftRecordNumber(e.parentRef.value);
    if j :| 0 <= j < |init| && NumberOf(init[j]) == p {
      EachAsAlone(t, init, j);
      assert !MeetsParent(t, e, init[j]);
      ChangesPresence(t, init[j]);
    } else {
      Untouched(t, init, p);
    }
  }

  // ----- Permutations -----

  ghost predicate Permutes(a: seq<UsnEvent>, b: seq<UsnEvent>) { multiset(a) == multiset(b) }

  lemma PermutedMember(a: seq<UsnEvent>, b: seq<UsnEvent>, k: nat) returns (j: nat)
    requires Permutes(a, b) && k < |b|
    ensures j < |a| && a[j] == b[k]
  {
    assert b[k] in multiset(a);
    j :| 0 <= j < |a| && a[j] == b[k];
  }

  lemma TwiceCounts<T>(s: seq<T>, j: nat, k: nat)
    requires j < k < |s| && s[j] == s[k]
    ensures multiset(s)[s[j]] >= 2
  {
    assert s == s[..k] + [s[k]] + s[k + 1..];
    assert s[j] in s[..k];
  }

  lemma OnceCounts(s: seq<UsnEvent>, x: nat)
    requires OneEach(s) && x < |s|
    ensures multiset(s)[s[x]] == 1
  {
    assert s == s[..x] + [s[x]] + s[x + 1..];
    assert s[x] !in s[..x] && s[x] !in s[x + 1..];
  }

  lemma PermutationKeepsOneEach(a: seq<UsnEvent>, b: seq<UsnEvent>)
    requires OneEach(a) && Permutes(a, b)
    ensures OneEach(b)
  {
    forall j, k | 0 <= j < k < |b| ensures NumberOf(b[j]) != NumberOf(b[k]) {
      var x := PermutedMember(a, b, j);
      var y := PermutedMember(a, b, k);
      if x == y {
        TwiceCounts(b, j, k);
        OnceCounts(a, x);
      }
    }
  }

  lemma PermutationKeepsUnmet(t: Tree, a: seq<UsnEvent>, b: seq<UsnEvent>)
    requires Unmet(t, a) && Permutes(a, b)
    ensures Unmet(t, b)
  {
    forall j, k | 0 <= j < |b| && 0 <= k < |b| ensures !MeetsParent(t, b[j], b[k]) {
      var x := PermutedMember(a, b, j);
      var y := PermutedMember(a, b, k);
    }
  }

  lemma SameWhereUnmet(t: Tree, a: seq<UsnEvent>, b: seq<UsnEvent>)
    requires OneEach(a) && Unmet(t, a) && Permutes(a, b)
    ensures TreeApplyAll(t, a) == TreeApplyAll(t, b)
  {
    PermutationKeepsOneEach(a, b);
    PermutationKeepsUnmet(t, a, b);
    forall n: nat ensures NodeIn(TreeApplyAll(t, a), n) == NodeIn(TreeApplyAll(t, b), n) {
      if k :| 0 <= k < |b| && NumberOf(b[k]) == n {
        var j := PermutedMember(a, b, k);
        EachAsAlone(t, a, j);
        EachAsAlone(t, b, k);
      } else {
        forall j | 0 <= j < |a| ensures NumberOf(a[j]) != n {
          var k := PermutedMember(b, a, j);
        }
        Untouched(t, a, n);
        Untouched(t, b, n);
      }
    }
    TreesEqual(TreeApplyAll(t, a), TreeApplyAll(t, b));
  }

  /** A list without two of its elements. */
  function WithoutTwo<T>(a: seq<T>, j: nat, k: nat): seq<T>
    requires j < k < |a|
  {
    a[..j] + a[j + 1..k] + a[k + 1..]
  }

  lemma BroughtTogether<T>(a: seq<T>, j: nat, k: nat)
    requires j < k < |a|
    ensures multiset(a) == multiset(WithoutTwo(a, j, k)) + multiset{a[j], a[k]}
  {
    assert a == a[..j] + [a[j]] + a[j + 1..k] + [a[k]] + a[k + 1..];
  }

  lemma WithoutIsOther(a: seq<UsnEvent>, j: nat, k: nat)
    requires OneEach(a) && j < k < |a|
    ensures forall i :: 0 <= i < |WithoutTwo(a, j, k)| ==>
              NumberOf(WithoutTwo(a, j, k)[i]) != NumberOf(a[j]) && NumberOf(WithoutTwo(a, j, k)[i]) != NumberOf(a[k])
  {
    var rest := WithoutTwo(a, j, k);
    forall i | 0 <= i < |rest| ensures NumberOf(rest[i]) != NumberOf(a[j]) && NumberOf(rest[i]) != NumberOf(a[k]) {
      var from := if i < j then i else if i < k - 1 then i + 1 else i + 2;
      assert rest[i] == a[from];
    }
  }

  lemma PairLast<T>(rest: seq<T>, e: T, f: T)
    ensures multiset((rest + [e]) + [f]) == multiset(rest) + multiset{e, f}
  {}

  lemma ApplySnoc(t: Tree, init: seq<UsnEvent>, e: UsnEvent)
    ensures TreeApplyAll(t, init + [e]) == TreeApply(TreeApplyAll(t, init), e)
  {
    assert (init + [e])[..|init|] == init;
  }

  /** The two orders of a move and of the event that brings or takes its parent. */
  lemma TwoOrdersDiffer(u: Tree, e: UsnEvent, f: UsnEvent)
    requires MeetsParent(u, e, f) && NumberOf(e) != NumberOf(f)
    ensures TreeApply(TreeApply(u, e), f) != TreeApply(TreeApply(u, f), e)
  {
    var n := NumberOf(e);
    ChangesPresence(u, f);
    OthersStay(u, f, n);
    OthersStay(TreeApply(u, e), f, n);
    assert NodeIn(TreeApply(TreeApply(u, e), f), n) != NodeIn(TreeApply(TreeApply(u, f), e), n);
  }

  lemma MeetsAgain(t: Tree, rest: seq<UsnEvent>, e: UsnEvent, f: UsnEvent)
    requires MeetsParent(t, e, f)
    requires forall i :: 0 <= i < |rest| ==> NumberOf(rest[i]) != NumberOf(e) && NumberOf(rest[i]) != NumberOf(f)
    ensures MeetsParent(TreeApplyAll(t, rest), e, f)
  {
    Untouched(t, rest, NumberOf(e));
    Untouched(t, rest, NumberOf(f));
  }

  lemma MetDiffers(t: Tree, rest: seq<UsnEvent>, e: UsnEvent, f: UsnEvent)
    requires MeetsParent(t, e, f) && NumberOf(e) != NumberOf(f)
    requires forall i :: 0 <= i < |rest| ==> NumberOf(rest[i]) != NumberOf(e) && NumberOf(rest[i]) != NumberOf(f)
    ensures TreeApplyAll(t, (rest + [e]) + [f]) != TreeApplyAll(t, (rest + [f]) + [e])
  {
    MeetsAgain(t, rest, e, f);
    TwoOrdersDiffer(TreeApplyAll(t, rest), e, f);
    ApplyTwo(t, rest, e, f);
    ApplyTwo(t, rest, f, e);
  }

  lemma ApplyTwo(t: Tree, rest: seq<UsnEvent>, e: UsnEvent, f: UsnEvent)
    ensures TreeApplyAll(t, (rest + [e]) + [f]) == TreeApply(TreeApply(TreeApplyAll(t, rest), e), f)
  {
    var one := rest + [e];
    ApplySnoc(t, one, f);
    ApplySnoc(t, rest, e);
  }

  ghost predicate OrderFree(t: Tree, a: seq<UsnEvent>) {
    forall b :: Permutes(a, b) ==> TreeApplyAll(t, b) == TreeApplyAll(t, a)
  }

  lemma NotFree(t: Tree, a: seq<UsnEvent>, b: seq<UsnEvent>, c: seq<UsnEvent>)
    requires Permutes(a, b) && Permutes(a, c) && TreeApplyAll(t, b) != TreeApplyAll(t, c)
    ensures !OrderFree(t, a)
  {}

  /** Two events that meet, in either order behind all others. */
  lemma MetIsNotFree(t: Tree, a: seq<UsnEvent>, j: nat, k: nat)
    requires OneEach(a) && j < k < |a| && (MeetsParent(t, a[j], a[k]) || MeetsParent(t, a[k], a[j]))
    ensures !OrderFree(t, a)
  {
    var rest := WithoutTwo(a, j, k);
    WithoutIsOther(a, j, k);
    BroughtTogether(a, j, k);
    PairLast(rest, a[j], a[k]);
    PairLast(rest, a[k], a[j]);
    if MeetsParent(t, a[j], a[k]) { MetDiffers(t, rest, a[j], a[k]); } else { MetDiffers(t, rest, a[k], a[j]); }
    NotFree(t, a, (rest + [a[j]]) + [a[k]], (rest + [a[k]]) + [a[j]]);
  }

  /** All orders of a batch lead to one tree if and only if no move meets its parent in the batch. */
  lemma OrderFreeIffUnmet(t: Tree, a: seq<UsnEvent>)
    requires OneEach(a)
    ensures OrderFree(t, a) <==> Unmet(t, a)
  {
    if Unmet(t, a) {
      forall b | Permutes(a, b) ensures TreeApplyAll(t, b) == TreeApplyAll(t, a) {
        SameWhereUnmet(t, a, b);
      }
    } else {
      var j, k :| 0 <= j < |a| && 0 <= k < |a| && MeetsParent(t, a[j], a[k]);
      if j < k { MetIsNotFree(t, a, j, k); } else { MetIsNotFree(t, a, k, j); }
    }
  }

  // ----- Applying a batch in any order -----

  lemma {:induction false} WellFormedAt(t: Tree, events: seq<UsnEvent>, k: nat)
    requires WellFormedAll(t, events) && k < |events|
    ensures WellFormed(TreeApplyAll(t, events[..k]), events[k])
    decreases |events|
  {
    var last := |events| - 1;
    if k < last {
      WellFormedAt(t, events[..last], k);
      assert events[..last][..k] == events[..k];
    }
  }

  /** One event for each number, and creates only where the tree has nothing. */
  ghost predicate FreshBatch(t: Tree, events: seq<UsnEvent>) {
    OneEach(events) && forall k :: 0 <= k < |events| ==> Acceptable(t, events[k])
  }

  /** In a batch that is well-formed in some order, every event is acceptable to the tree before it. */
  lemma BatchIsAcceptable(t: Tree, order: seq<UsnEvent>, events: seq<UsnEvent>)
    requires OneEach(order) && WellFormedAll(t, order) && Permutes(order, events)
    ensures FreshBatch(t, events)
  {
    PermutationKeepsOneEach(order, events);
    forall k | 0 <= k < |events| ensures Acceptable(t, events[k]) {
      var j := PermutedMember(order, events, k);
      WellFormedAt(t, order, j);
      Untouched(t, order[..j], NumberOf(order[j]));
    }
  }

  /** Whatever its order, a batch of acceptable events is followed by lookups and tree. */
  lemma {:induction false} BatchTracks(v: View, events: seq<UsnEvent>)
    requires Indexed(v) && LogicalLen(v) + |events| <= PARENT_NONE
    requires FreshBatch(Abs(v), events)
    ensures Indexed(ApplyEvents(v, events))
    ensures Abs(ApplyEvents(v, events)) == TreeApplyAll(Abs(v), events)
    ensures LogicalLen(ApplyEvents(v, events)) <= LogicalLen(v) + |events|
  {
    if events != [] {
      var init, e := events[..|events| - 1], events[|events| - 1];
      BatchTracks(v, init);
      Untouched(Abs(v), init, NumberOf(e));
      EventTracks(ApplyEvents(v, init), e);
      ApplyEventKeepsStruct(ApplyEvents(v, init), e);
    }
  }

  // ----- Stored parents -----

  /** Where the stored parent of a record comes from, and whether it survives. */
  ghost predicate ParentFrom(v: View, e: UsnEvent, i: nat) {
    var w := ApplyEvent(v, e);
    i < LogicalLen(w) && Live(w, i) && StoredParent(w, i).Some? ==>
      var p := StoredParent(w, i).value;
      && i < LogicalLen(v) && Live(v, i) && NumberAt(w, i) == NumberAt(v, i)
      && p < LogicalLen(v) && NumberAt(w, p) == NumberAt(v, p)
      && (StoredParent(v, i) == Some(p) || (NumberAt(v, i) == NumberOf(e) && Live(v, p)))
      && (Live(v, p) && !Live(w, p) ==> e.kind == Delete && NumberAt(v, p) == NumberOf(e))
  }

  lemma DeleteParentFrom(v: View, e: UsnEvent, i: nat)
    requires Indexed(v) && e.kind == Delete
    ensures ParentFrom(v, e, i)
  {
    DeleteTracks(v, e.fileRef);
    assert NumberOk(v, NumberOf(e));
    if RefLookup(v, e.fileRef).Some? && i < LogicalLen(v) {
      DeleteFrame(v, e.fileRef, i);
      if StoredParent(v, i).Some? {
        StoredParentInRange(v, i);
        DeleteFrame(v, e.fileRef, StoredParent(v, i).value);
      }
    } else if i < LogicalLen(v) && StoredParent(v, i).Some? {
      StoredParentInRange(v, i);
    }
  }

  lemma CreateParentFrom(v: View, e: UsnEvent, i: nat)
    requires Indexed(v) && LogicalLen(v) < PARENT_NONE && ApplyEvent(v, e) == ApplyCreate(v, e)
    ensures ParentFrom(v, e, i)
  {
    ApplyCreateKeepsDelta(v, e);
    if HasName(e) { CreateAdds(v, e); }
    if i < LogicalLen(v) {
      CreateFrame(v, e, i);
      if StoredParent(v, i).Some? {
        StoredParentInRange(v, i);
        CreateFrame(v, e, StoredParent(v, i).value);
      }
    }
  }

  lemma FoundParentFrom(v: View, e: UsnEvent, i: nat)
    requires Indexed(v) && Moves(e) && RefLookup(v, e.fileRef).Some?
    ensures ParentFrom(v, e, i)
  {
    var at := RefLookup(v, e.fileRef).value;
    var w := ApplyRenameMove(v, e);
    assert NumberOk(v, NumberOf(e));
    FoundParents(v, at, e, at);
    if i < LogicalLen(v) {
      FoundParents(v, at, e, i);
      if StoredParent(v, i).Some? { StoredParentInRange(v, i); }
      if StoredParent(w, i).Some? { FoundParents(v, at, e, StoredParent(w, i).value); }
    }
  }

  lemma ParentComesFrom(v: View, e: UsnEvent, i: nat)
    requires Indexed(v) && LogicalLen(v) < PARENT_NONE
    ensures ParentFrom(v, e, i)
  {
    match e.kind {
      case Delete => DeleteParentFrom(v, e, i);
      case Metadata => if i < LogicalLen(v) && StoredParent(v, i).Some? { StoredParentInRange(v, i); }
      case Create => CreateParentFrom(v, e, i);
      case _ => if RefLookup(v, e.fileRef).Some? { FoundParentFrom(v, e, i); } else { CreateParentFrom(v, e, i); }
    }
  }

  ghost predicate DeletedBy(t: Tree, events: seq<UsnEvent>, q: nat) {
    q in t && exists k :: 0 <= k < |events| && events[k].kind == Delete && NumberOf(events[k]) == q
  }

  /** After part of a batch, a stored parent is live or was deleted by the batch. */
  ghost predicate LiveOrDeleted(v: View, events: seq<UsnEvent>, i: nat) {
    var w := ApplyEvents(v, events);
    i < LogicalLen(w) && Live(w, i) && StoredParent(w, i).Some? ==>
      var p := StoredParent(w, i).value;
      && p < LogicalLen(w) && NumberAt(w, i) in Abs(v)
      && (Live(w, p) || DeletedBy(Abs(v), events, NumberAt(w, p)))
  }

  lemma LiveOrDeletedStep(v: View, init: seq<UsnEvent>, e: UsnEvent, i: nat)
    requires Indexed(ApplyEvents(v, init)) && LogicalLen(ApplyEvents(v, init)) < PARENT_NONE
    requires LiveOrDeleted(v, init, i) && ParentFrom(ApplyEvents(v, init), e, i)
    requires LogicalLen(ApplyEvents(v, init)) <= LogicalLen(ApplyEvents(v, init + [e]))
    requires NumberOf(e) in Abs(ApplyEvents(v, init)) ==> NumberOf(e) in Abs(v)
    requires ApplyEvents(v, init + [e]) == ApplyEvent(ApplyEvents(v, init), e)
    ensures LiveOrDeleted(v, init + [e], i)
  {
    var u := ApplyEvents(v, init);
    var w := ApplyEvents(v, init + [e]);
    if i < LogicalLen(w) && Live(w, i) && StoredParent(w, i).Some? {
      var p := StoredParent(w, i).value;
      AbsAt(u, i);
      if Live(u, p) {
        AbsAt(u, p);
        if !Live(w, p) { assert (init + [e])[|init|] == e; }
      } else {
        assert DeletedBy(Abs(v), init, NumberAt(u, p));
        var k :| 0 <= k < |init| && init[k].kind == Delete && NumberOf(init[k]) == NumberAt(u, p);
        assert (init + [e])[k] == init[k];
      }
    }
  }

  lemma {:induction false} StoredParentsLast(v: View, events: seq<UsnEvent>, i: nat)
    requires Inv(v) && LogicalLen(v) + |events| <= PARENT_NONE
    requires FreshBatch(Abs(v), events)
    ensures LiveOrDeleted(v, events, i)
  {
    if events == [] {
      assert ParentLive(v, i);
      if i < LogicalLen(v) && Live(v, i) {
        AbsAt(v, i);
        if StoredParent(v, i).Some? { StoredParentInRange(v, i); }
      }
    } else {
      var init, e := events[..|events| - 1], events[|events| - 1];
      assert init + [e] == events;
      StoredParentsLast(v, init, i);
      BatchTracks(v, init);
      Untouched(Abs(v), init, NumberOf(e));
      ParentComesFrom(ApplyEvents(v, init), e, i);
      ApplyEventKeepsStruct(ApplyEvents(v, init), e);
      LiveOrDeletedStep(v, init, e, i);
    }
  }

  /** A well-formed order leaves no old record below a number that it deletes. */
  ghost predicate NoneBelow(t: Tree, order: seq<UsnEvent>, q: nat, n: nat) {
    DeletedBy(t, order, q) && n in t ==>
      var u := TreeApplyAll(t, order);
      q !in u && (n in u ==> u[n].parent != Some(q))
  }

  lemma NoneBelowStep(t: Tree, init: seq<UsnEvent>, e: UsnEvent, q: nat, n: nat)
    requires OneEach(init + [e]) && WellFormed(TreeApplyAll(t, init), e) && NoneBelow(t, init, q, n) && n != q
    requires TreeApplyAll(t, init + [e]) == TreeApply(TreeApplyAll(t, init), e)
    ensures NoneBelow(t, init + [e], q, n)
  {
    var all, u := init + [e], TreeApplyAll(t, init);
    forall k | 0 <= k < |init| ensures all[k] == init[k] && NumberOf(init[k]) != NumberOf(e) {
      assert NumberOf(all[k]) != NumberOf(all[|init|]);
    }
    Untouched(t, init, NumberOf(e));
    if DeletedBy(t, all, q) && n in t {
      var k :| 0 <= k < |all| && all[k].kind == Delete && NumberOf(all[k]) == q;
      if k < |init| {
        assert DeletedBy(t, init, q);
        OthersStay(u, e, q);
      }
    }
  }

  lemma {:induction false} WellFormedLeavesNone(t: Tree, order: seq<UsnEvent>, q: nat, n: nat)
    requires OneEach(order) && WellFormedAll(t, order) && n != q
    ensures NoneBelow(t, order, q, n)
  {
    if order != [] {
      var init, e := order[..|order| - 1], order[|order| - 1];
      assert init + [e] == order;
      WellFormedLeavesNone(t, init, q, n);
      NoneBelowStep(t, init, e, q, n);
    }
  }

  // ----- Batches that lead to a settled tree -----

  /** A possible history as it comes, or one fresh event for each number in any order. */
  ghost predicate Readable(t: Tree, events: seq<UsnEvent>) { WellFormedAll(t, events) || FreshBatch(t, events) }

  lemma ReadableFlags(t: Tree, events: seq<UsnEvent>)
    requires Readable(t, events)
    ensures forall k :: 0 <= k < |events| ==> EventFlagsOk(events[k])
  {
    forall k | 0 <= k < |events| ensures EventFlagsOk(events[k]) {
      if WellFormedAll(t, events) { WellFormedAt(t, events, k); }
    }
  }

  lemma ReadableRefines(v: View, events: seq<UsnEvent>)
    requires Inv(v) && LogicalLen(v) + |events| <= PARENT_NONE && Readable(Abs(v), events)
    requires Settled(TreeApplyAll(Abs(v), events))
    ensures Inv(ApplyEvents(v, events))
    ensures Abs(ApplyEvents(v, events)) == TreeApplyAll(Abs(v), events)
  {
    if WellFormedAll(Abs(v), events) { EventsRefine(v, events); } else { SettledBatchRefines(v, events); }
  }

  lemma {:induction false} DeletedStaysAway(t: Tree, order: seq<UsnEvent>, j: nat)
    requires OneEach(order) && j < |order| && order[j].kind == Delete
    ensures NumberOf(order[j]) !in TreeApplyAll(t, order)
    decreases |order|
  {
    var init, e := order[..|order| - 1], order[|order| - 1];
    if j < |init| {
      DeletedStaysAway(t, init, j);
      OthersStay(TreeApplyAll(t, init), e, NumberOf(order[j]));
    }
  }

  /** If the tree at the end of a batch misses no parent, the batch kept the invariant, whatever its order. */
  lemma SettledBatchRefines(v: View, events: seq<UsnEvent>)
    requires Inv(v) && LogicalLen(v) + |events| <= PARENT_NONE && FreshBatch(Abs(v), events)
    requires Settled(TreeApplyAll(Abs(v), events))
    ensures Inv(ApplyEvents(v, events))
    ensures Abs(ApplyEvents(v, events)) == TreeApplyAll(Abs(v), events)
  {
    var w := ApplyEvents(v, events);
    BatchTracks(v, events);
    forall i: nat ensures ParentLive(w, i) {
      StoredParentsLast(v, events, i);
      if i < LogicalLen(w) && Live(w, i) && StoredParent(w, i).Some? && !Live(w, StoredParent(w, i).value) {
        var q := NumberAt(w, StoredParent(w, i).value);
        var k :| 0 <= k < |events| && events[k].kind == Delete && NumberOf(events[k]) == q;
        AbsAt(w, i);
        DeletedStaysAway(Abs(v), events, k);
      }
    }
  }

  // ----- Batches that create what is there -----

  /** A live record that its number no longer finds, and no other number finds either. */
  ghost predicate Shadowed(w: View, i: nat, n: nat) {
    && i < LogicalLen(w) && Live(w, i) && NumberAt(w, i) == n
    && Lookup(w, n).Some? && forall m: nat :: Lookup(w, m) != Some(i)
  }

  lemma LookupOfOthers(v: View, e: UsnEvent, m: nat)
    requires m != NumberOf(e)
    ensures Lookup(ApplyEvent(v, e), m) == Lookup(v, m)
  {}

  lemma ShadowedStays(w: View, e: UsnEvent, i: nat, n: nat)
    requires StructOk(w) && LogicalLen(w) < PARENT_NONE && Shadowed(w, i, n) && NumberOf(e) != n
    ensures Shadowed(ApplyEvent(w, e), i, n)
  {
    var after := ApplyEvent(w, e);
    ApplyEventKeepsStruct(w, e);
    LookupOfOthers(w, e, n);
    LiveIsNotDeleted(w, i);
    LiveIsNotDeleted(after, i);
    forall m: nat ensures Lookup(after, m) != Some(i) {
      if m != NumberOf(e) { LookupOfOthers(w, e, m); }
    }
  }

  lemma SecondCreateShadows(w: View, e: UsnEvent)
    requires Indexed(w) && LogicalLen(w) < PARENT_NONE && e.kind == Create && HasName(e) && NumberOf(e) in Abs(w)
    ensures Lookup(w, NumberOf(e)).Some? && Shadowed(ApplyEvent(w, e), Lookup(w, NumberOf(e)).value, NumberOf(e))
  {
    var i := Lookup(w, NumberOf(e)).value;
    var after := ApplyEvent(w, e);
    AbsHas(w, NumberOf(e));
    ApplyCreateKeepsDelta(w, e);
    CreateFrame(w, e, i);
    forall m: nat ensures Lookup(after, m) != Some(i) {
      assert NumberOk(w, m);
      if m != NumberOf(e) { LookupOfOthers(w, e, m); }
    }
  }

  /** A batch that creates a live number leaves a record that nothing finds. */
  lemma {:induction false} ReplayShadows(v: View, events: seq<UsnEvent>) returns (i: nat, k: nat)
    requires Indexed(v) && LogicalLen(v) + |events| <= PARENT_NONE && OneEach(events)
    requires !FreshBatch(Abs(v), events) && forall j :: 0 <= j < |events| ==> EventFlagsOk(events[j])
    ensures k < |events| && Shadowed(ApplyEvents(v, events), i, NumberOf(events[k]))
  {
    var init, e := events[..|events| - 1], events[|events| - 1];
    if FreshBatch(Abs(v), init) {
      assert init + [e] == events;
      LastIsReplayed(Abs(v), init, e);
      i := ReplayedLast(v, init, e);
      k := |init|;
    } else {
      i, k := ReplayShadows(v, init);
      ApplyEventsKeepStruct(v, init);
      ShadowedStays(ApplyEvents(v, init), e, i, NumberOf(init[k]));
    }
  }

  lemma LastIsReplayed(t: Tree, init: seq<UsnEvent>, e: UsnEvent)
    requires OneEach(init + [e]) && FreshBatch(t, init) && !FreshBatch(t, init + [e]) && EventFlagsOk(e)
    ensures e.kind == Create && HasName(e) && NumberOf(e) in t
    ensures forall j :: 0 <= j < |init| ==> NumberOf(init[j]) != NumberOf(e)
  {
    var all := init + [e];
    assert all[|init|] == e && forall j :: 0 <= j < |init| ==> all[j] == init[j];
    var k :| 0 <= k < |all| && !Acceptable(t, all[k]);
  }

  lemma ReplayedLast(v: View, init: seq<UsnEvent>, e: UsnEvent) returns (i: nat)
    requires Indexed(v) && LogicalLen(v) + |init| < PARENT_NONE && FreshBatch(Abs(v), init)
    requires e.kind == Create && HasName(e) && NumberOf(e) in Abs(v)
    requires forall j :: 0 <= j < |init| ==> NumberOf(init[j]) != NumberOf(e)
    ensures Shadowed(ApplyEvent(ApplyEvents(v, init), e), i, NumberOf(e))
  {
    BatchTracks(v, init);
    Untouched(Abs(v), init, NumberOf(e));
    SecondCreateShadows(ApplyEvents(v, init), e);
    i := Lookup(ApplyEvents(v, init), NumberOf(e)).value;
  }

  /** So such a batch always breaks the invariant. */
  lemma ReplayBreaksInv(v: View, events: seq<UsnEvent>)
    requires Indexed(v) && LogicalLen(v) + |events| <= PARENT_NONE && OneEach(events)
    requires !FreshBatch(Abs(v), events) && forall j :: 0 <= j < |events| ==> EventFlagsOk(events[j])
    ensures !Inv(ApplyEvents(v, events))
  {
    var i, k := ReplayShadows(v, events);
    assert !RecordOk(ApplyEvents(v, events), i);
  }

  /** Towards a settled tree a batch keeps the invariant if and only if it creates no live number. */
  lemma BatchKeepsInvIffFresh(v: View, events: seq<UsnEvent>)
    requires Inv(v) && LogicalLen(v) + |events| <= PARENT_NONE && OneEach(events)
    requires Settled(TreeApplyAll(Abs(v), events)) && forall j :: 0 <= j < |events| ==> EventFlagsOk(events[j])
    ensures Inv(ApplyEvents(v, events)) <==> FreshBatch(Abs(v), events)
  {
    if FreshBatch(Abs(v), events) { SettledBatchRefines(v, events); } else { ReplayBreaksInv(v, events); }
  }

  // ----- Batches that are well-formed in some order -----

  /** The batch comes in another order than a well-formed one, and means the same. */
  ghost predicate Reordered(t: Tree, events: seq<UsnEvent>, order: seq<UsnEvent>) {
    && OneEach(order) && Permutes(order, events) && WellFormedAll(t, order)
    && TreeApplyAll(t, events) == TreeApplyAll(t, order)
  }

  /** A batch that is well-formed as it comes, or, with one event for each number, in some other order. */
  ghost predicate Orderly(t: Tree, events: seq<UsnEvent>) {
    WellFormedAll(t, events) || exists order :: Reordered(t, events, order)
  }

  /** Two different records never share a number that a batch deletes. */
  lemma DeletedIsGone(t: Tree, events: seq<UsnEvent>, order: seq<UsnEvent>, q: nat, n: nat)
    requires Reordered(t, events, order) && DeletedBy(t, events, q) && n in t && n in TreeApplyAll(t, events)
    ensures TreeApplyAll(t, events)[n].parent != Some(q)
  {
    var k :| 0 <= k < |events| && events[k].kind == Delete && NumberOf(events[k]) == q;
    var j := PermutedMember(order, events, k);
    assert DeletedBy(t, order, q);
    if n == q {
      WellFormedLeavesNone(t, order, q, q + 1);
      DeletedStaysAway(t, order, j);
    } else {
      WellFormedLeavesNone(t, order, q, n);
    }
  }

  /** A batch that is well-formed in some order updates the tree as that order does and keeps the invariant. */
  lemma ReorderedRefines(v: View, events: seq<UsnEvent>, order: seq<UsnEvent>)
    requires Inv(v) && LogicalLen(v) + |events| <= PARENT_NONE && Reordered(Abs(v), events, order)
    ensures Inv(ApplyEvents(v, events))
    ensures Abs(ApplyEvents(v, events)) == TreeApplyAll(Abs(v), events)
  {
    var w := ApplyEvents(v, events);
    PermutationKeepsOneEach(order, events);
    BatchIsAcceptable(Abs(v), order, events);
    BatchTracks(v, events);
    forall i: nat ensures ParentLive(w, i) {
      StoredParentsLast(v, events, i);
      if i < LogicalLen(w) && Live(w, i) && StoredParent(w, i).Some? && !Live(w, StoredParent(w, i).value) {
        AbsAt(w, i);
        DeletedIsGone(Abs(v), events, order, NumberAt(w, StoredParent(w, i).value), NumberAt(w, i));
      }
    }
  }

  lemma OrderlyRefines(v: View, events: seq<UsnEvent>)
    requires Inv(v) && LogicalLen(v) + |events| <= PARENT_NONE && Orderly(Abs(v), events)
    ensures Inv(ApplyEvents(v, events))
    ensures Abs(ApplyEvents(v, events)) == TreeApplyAll(Abs(v), events)
  {
    if WellFormedAll(Abs(v), events) {
      EventsRefine(v, events);
    } else {
      var order :| Reordered(Abs(v), events, order);
      ReorderedRefines(v, events, order);
    }
  }

  // ----- Batch after batch -----

  function ApplyBatches(v: View, batches: seq<seq<UsnEvent>>): View {
    if batches == [] then v else ApplyEvents(ApplyBatches(v, batches[..|batches| - 1]), batches[|batches| - 1])
  }

  function TreeApplyBatches(t: Tree, batches: seq<seq<UsnEvent>>): Tree {
    if batches == [] then t else TreeApplyAll(TreeApplyBatches(t, batches[..|batches| - 1]), batches[|batches| - 1])
  }

  function TotalEvents(batches: seq<seq<UsnEvent>>): nat {
    if batches == [] then 0 else TotalEvents(batches[..|batches| - 1]) + |batches[|batches| - 1]|
  }

  ghost predicate OrderlyAll(t: Tree, batches: seq<seq<UsnEvent>>) {
    batches == [] ||
    (var init := batches[..|batches| - 1];
     OrderlyAll(t, init) && Orderly(TreeApplyBatches(t, init), batches[|batches| - 1]))
  }

  lemma {:induction false} BatchesRefine(v: View, batches: seq<seq<UsnEvent>>)
    requires Inv(v) && LogicalLen(v) + TotalEvents(batches) <= PARENT_NONE && OrderlyAll(Abs(v), batches)
    ensures Inv(ApplyBatches(v, batches))
    ensures Abs(ApplyBatches(v, batches)) == TreeApplyBatches(Abs(v), batches)
    ensures LogicalLen(ApplyBatches(v, batches)) <= LogicalLen(v) + TotalEvents(batches)
  {
    if batches != [] {
      var init, last := batches[..|batches| - 1], batches[|batches| - 1];
      BatchesRefine(v, init);
      OrderlyRefines(ApplyBatches(v, init), last);
      ApplyEventsKeepStruct(ApplyBatches(v, init), last);
    }
  }

  // ----- The order of a batch does not matter, exactly when -----

  /** Every order of the batch keeps the invariant and leads to the same tree. */
  ghost predicate AnyOrderDoes(v: View, a: seq<UsnEvent>) {
    forall b :: Permutes(a, b) ==> Inv(ApplyEvents(v, b)) && Abs(ApplyEvents(v, b)) == Abs(ApplyEvents(v, a))
  }

  /**
   For a batch that is well-formed in some order, every order does if and only if
   no move of a known record names as its parent a number that the batch creates
   or deletes.
   */
  lemma AnyOrderDoesIffUnmet(v: View, a: seq<UsnEvent>)
    requires Inv(v) && LogicalLen(v) + |a| <= PARENT_NONE && OneEach(a) && WellFormedAll(Abs(v), a)
    ensures AnyOrderDoes(v, a) <==> Unmet(Abs(v), a)
  {
    var t := Abs(v);
    OrderFreeIffUnmet(t, a);
    BatchIsAcceptable(t, a, a);
    BatchTracks(v, a);
    forall b | Permutes(a, b)
      ensures Abs(ApplyEvents(v, b)) == TreeApplyAll(t, b)
      ensures Unmet(t, a) ==> Inv(ApplyEvents(v, b)) && TreeApplyAll(t, b) == TreeApplyAll(t, a)
    {
      assert |a| == |multiset(a)| && |b| == |multiset(b)|;
      PermutationKeepsOneEach(a, b);
      BatchIsAcceptable(t, a, b);
      BatchTracks(v, b);
      if Unmet(t, a) {
        assert TreeApplyAll(t, b) == TreeApplyAll(t, a);
        ReorderedRefines(v, b, a);
      }
    }
  }
}
