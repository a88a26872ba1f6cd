/**
 The lookup table from record number to record index (`FileRefMap`), in its
 dense and sorted forms, shown to be one and the same finite map.
 */
module FileRefMaps {
  import opened Basics
  import opened Records

  const MISSING_INDEX: nat := 0xFFFF_FFFF

  datatype RefPair = RefPair(fileRef: FileRef, idx: nat) {
    function Number(): nat { MftRecordNumber(fileRef) }
  }

  datatype FileRefMap =
    | Empty
    | Dense(baseRecordNumber: nat, slots: seq<nat>)
    | Sorted(entries: seq<RefPair>)

  // ----- The specification: a finite map from record numbers -----

  /** The map a list of pairs stands for; a later pair replaces an earlier one. */
  function PairsMap(ps: seq<RefPair>): map<nat, nat> {
    if ps == [] then map[]
    else PairsMap(ps[..|ps| - 1])[ps[|ps| - 1].Number() := ps[|ps| - 1].idx]
  }

  function MapGet(m: map<nat, nat>, n: nat): Option<nat> {
    if n in m then Some(m[n]) else None
  }

  ghost predicate DistinctNumbers(ps: seq<RefPair>) {
    forall i, j :: 0 <= i < j < |ps| ==> ps[i].Number() != ps[j].Number()
  }

  /** Indices fit below the sentinel of an absent dense slot. */
  ghost predicate IndicesFit(ps: seq<RefPair>) {
    forall i :: 0 <= i < |ps| ==> ps[i].idx < MISSING_INDEX
  }

  // ----- The code -----

  function GetNumber(m: FileRefMap, number: nat): Option<nat> {
    match m
    case Empty => None
    case Dense(base, slots) =>
      if base <= number && number - base < |slots| && slots[number - base] != MISSING_INDEX
      then Some(slots[number - base]) else None
    case Sorted(entries) => BinarySearch(entries, number, 0, |entries|)
  }

  function BinarySearch(entries: seq<RefPair>, number: nat, lo: nat, hi: nat): Option<nat>
    requires lo <= hi <= |entries|
    decreases hi - lo
  {
    if lo == hi then None
    else
      var mid := (lo + hi) / 2;
      if entries[mid].Number() == number then Some(entries[mid].idx)
      else if entries[mid].Number() < number then BinarySearch(entries, number, mid + 1, hi)
      else BinarySearch(entries, number, lo, mid)
  }

  function Pairs(m: FileRefMap): seq<RefPair> {
    match m
    case Empty => []
    case Dense(base, slots) => DensePairs(base, slots)
    case Sorted(entries) => entries
  }

  function DensePairs(base: nat, slots: seq<nat>): seq<RefPair> {
    if slots == [] then []
    else
      var last := |slots| - 1;
      DensePairs(base, slots[..last]) +
      if slots[last] == MISSING_INDEX then [] else [RefPair(FileRef(0, base + last), slots[last])]
  }

  function Lowest(ps: seq<RefPair>): (n: nat)
    requires ps != []
    ensures forall i :: 0 <= i < |ps| ==> n <= ps[i].Number()
    ensures exists i :: 0 <= i < |ps| && n == ps[i].Number()
  {
    var last := ps[|ps| - 1].Number();
    if |ps| == 1 then last
    else
      var rest := Lowest(ps[..|ps| - 1]);
      if last < rest then last else rest
  }

  function Highest(ps: seq<RefPair>): (n: nat)
    requires ps != []
    ensures forall i :: 0 <= i < |ps| ==> ps[i].Number() <= n
    ensures exists i :: 0 <= i < |ps| && n == ps[i].Number()
  {
    var last := ps[|ps| - 1].Number();
    if |ps| == 1 then last
    else
      var rest := Highest(ps[..|ps| - 1]);
      if rest < last then last else rest
  }

  predicate UsesDense(ps: seq<RefPair>)
    requires ps != []
  {
    Highest(ps) - Lowest(ps) + 1 <= Max(4 * |ps|, 1024)
  }

  function FromPairs(ps: seq<RefPair>): FileRefMap {
    if ps == [] then Empty
    else if UsesDense(ps) then
      Dense(Lowest(ps), FillSlots(ps, Lowest(ps), Highest(ps) - Lowest(ps) + 1))
    else Sorted(SortByNumber(ps))
  }

  function FillSlots(ps: seq<RefPair>, first: nat, span: nat): (slots: seq<nat>)
    requires forall i :: 0 <= i < |ps| ==> first <= ps[i].Number() < first + span
    ensures |slots| == span
  {
    if ps == [] then seq(span, _ => MISSING_INDEX)
    else
      var last := |ps| - 1;
      FillSlots(ps[..last], first, span)[ps[last].Number() - first := ps[last].idx]
  }

  /** Any sort by number will do: the source uses an unstable one. */
  function SortByNumber(ps: seq<RefPair>): seq<RefPair> {
    if ps == [] then []
    else InsertByNumber(SortByNumber(ps[..|ps| - 1]), ps[|ps| - 1])
  }

  function InsertByNumber(sorted: seq<RefPair>, p: RefPair): seq<RefPair> {
    if sorted == [] then [p]
    else if p.Number() < sorted[0].Number() then [p] + sorted
    else [sorted[0]] + InsertByNumber(sorted[1..], p)
  }

  function Insert(m: FileRefMap, fileRef: FileRef, idx: nat): FileRefMap {
    FromPairs(Upsert(Pairs(m), fileRef, idx))
  }

  /** Replace the index of the first pair with this number, or append a pair. */
  function Upsert(ps: seq<RefPair>, fileRef: FileRef, idx: nat): seq<RefPair> {
    if ps == [] then [RefPair(fileRef, idx)]
    else if ps[0].Number() == MftRecordNumber(fileRef) then [ps[0].(idx := idx)] + ps[1..]
    else [ps[0]] + Upsert(ps[1..], fileRef, idx)
  }

  function Remove(m: FileRefMap, fileRef: FileRef): FileRefMap {
    FromPairs(Without(Pairs(m), MftRecordNumber(fileRef)))
  }

  function Without(ps: seq<RefPair>, number: nat): seq<RefPair> {
    if ps == [] then []
    else (if ps[0].Number() != number then [ps[0]] else []) + Without(ps[1..], number)
  }

  /** `from_pairs` as the source runs it: one pass that writes dense slots in place. */
  method BuildFromPairs(ps: seq<RefPair>) returns (m: FileRefMap)
    ensures m == FromPairs(ps)
  {
    if ps == [] { return Empty; }
    var first, last := Lowest(ps), Highest(ps);
    var span := last - first + 1;
    if span <= Max(4 * |ps|, 1024) {
      var slots := new nat[span](_ => MISSING_INDEX);
      assert slots[..] == FillSlots(ps[..0], first, span);
      for i := 0 to |ps|
        invariant slots[..] == FillSlots(ps[..i], first, span)
      {
        slots[ps[i].Number() - first] := ps[i].idx;
        assert ps[..i + 1][..i] == ps[..i];
      }
      assert ps[..|ps|] == ps;
      m := Dense(first, slots[..]);
    } else {
      m := Sorted(SortByNumber(ps));
    }
  }

  lemma UpsertPasses(ps: seq<RefPair>, k: nat, fileRef: FileRef, idx: nat)
    requires k < |ps| && ps[k].Number() != MftRecordNumber(fileRef)
    ensures ps[..k] + Upsert(ps[k..], fileRef, idx) == ps[..k + 1] + Upsert(ps[k + 1..], fileRef, idx)
  {
    assert ps[k..][1..] == ps[k + 1..];
    assert ps[..k] + ([ps[k]] + Upsert(ps[k + 1..], fileRef, idx)) == ps[..k + 1] + Upsert(ps[k + 1..], fileRef, idx);
  }

  lemma UpsertStops(ps: seq<RefPair>, k: nat, fileRef: FileRef, idx: nat)
    requires k <= |ps| && (k < |ps| ==> ps[k].Number() == MftRecordNumber(fileRef))
    ensures ps[..k] + Upsert(ps[k..], fileRef, idx) ==
            if k < |ps| then ps[k := ps[k].(idx := idx)] else ps + [RefPair(fileRef, idx)]
  {
    if k < |ps| {
      assert ps[k..][1..] == ps[k + 1..];
      assert ps[k := ps[k].(idx := idx)] == ps[..k] + ([ps[k].(idx := idx)] + ps[k + 1..]);
    } else {
      assert ps[..k] == ps && ps[k..] == [];
    }
  }

  /** The table as its owner keeps it: each change exports the pairs, edits them and rebuilds the table. */
  class FileRefTable {
    var table: FileRefMap

    constructor ()
      ensures table == Empty
    {
      table := Empty;
    }

    method InsertEntry(fileRef: FileRef, idx: nat)
      modifies this
      ensures table == Insert(old(table), fileRef, idx)
    {
      var pairs := Pairs(table);
      var k := 0;
      assert pairs[..0] + Upsert(pairs[0..], fileRef, idx) == Upsert(pairs, fileRef, idx);
      while k < |pairs| && pairs[k].Number() != MftRecordNumber(fileRef)
        invariant k <= |pairs|
        invariant Upsert(pairs, fileRef, idx) == pairs[..k] + Upsert(pairs[k..], fileRef, idx)
      {
        UpsertPasses(pairs, k, fileRef, idx);
        k := k + 1;
      }
      UpsertStops(pairs, k, fileRef, idx);
      if k < |pairs| {
        pairs := pairs[k := pairs[k].(idx := idx)];
      } else {
        pairs := pairs + [RefPair(fileRef, idx)];
      }
      table := BuildFromPairs(pairs);
    }

    method RemoveEntry(fileRef: FileRef)
      modifies this
      ensures table == Remove(old(table), fileRef)
    {
      var kept := Filtered(Pairs(table), MftRecordNumber(fileRef));
      table := BuildFromPairs(kept);
    }
  }

  method Filtered(pairs: seq<RefPair>, number: nat) returns (kept: seq<RefPair>)
    ensures kept == Without(pairs, number)
  {
    kept := [];
    var k := 0;
    assert pairs[0..] == pairs;
    while k < |pairs|
      invariant k <= |pairs|
      invariant Without(pairs, number) == kept + Without(pairs[k..], number)
    {
      assert pairs[k..][1..] == pairs[k + 1..];
      if pairs[k].Number() != number { kept := kept + [pairs[k]]; }
      k := k + 1;
    }
    assert pairs[k..] == [] && kept + [] == kept;
  }

  // ----- Valid tables -----

  ghost predicate StrictlySorted(ps: seq<RefPair>) {
    forall i, j :: 0 <= i < j < |ps| ==> ps[i].Number() < ps[j].Number()
  }

  ghost predicate Valid(m: FileRefMap) {
    match m
    case Empty => true
    case Dense(base, slots) =>
      forall i :: 0 <= i < |slots| ==> slots[i] <= MISSING_INDEX
    case Sorted(entries) => StrictlySorted(entries) && IndicesFit(entries)
  }

  // ----- Pair lists as maps -----

  lemma {:induction false} PairsMapAt(ps: seq<RefPair>, i: nat)
    requires DistinctNumbers(ps) && i < |ps|
    ensures ps[i].Number() in PairsMap(ps) && PairsMap(ps)[ps[i].Number()] == ps[i].idx
  {
    if i < |ps| - 1 {
      PairsMapAt(ps[..|ps| - 1], i);
    }
  }

  /** Every entry of the map comes from a pair of the list. */
  lemma {:induction false} PairsMapSource(ps: seq<RefPair>, n: nat) returns (p: RefPair)
    requires n in PairsMap(ps)
    ensures p in ps && p.Number() == n && p.idx == PairsMap(ps)[n]
  {
    var last := |ps| - 1;
    if ps[last].Number() == n {
      p := ps[last];
    } else {
      p := PairsMapSource(ps[..last], n);
    }
  }

  /** A number whose pairs all occur in another list is looked up alike there. */
  lemma LookupCarries(a: seq<RefPair>, b: seq<RefPair>, n: nat)
    requires DistinctNumbers(b)
    requires forall p: RefPair :: p in a && p.Number() == n ==> p in b
    ensures n in PairsMap(a) ==> n in PairsMap(b) && PairsMap(a)[n] == PairsMap(b)[n]
  {
    if n in PairsMap(a) {
      var p := PairsMapSource(a, n);
      var j :| 0 <= j < |b| && b[j] == p;
      PairsMapAt(b, j);
    }
  }

  /** Lists with distinct numbers and the same pairs stand for the same map. */
  lemma SamePairsSameMap(a: seq<RefPair>, b: seq<RefPair>)
    requires DistinctNumbers(a) && DistinctNumbers(b)
    requires forall p :: p in a <==> p in b
    ensures PairsMap(a) == PairsMap(b)
  {
    forall n ensures n in PairsMap(a) ==> n in PairsMap(b) && PairsMap(a)[n] == PairsMap(b)[n] {
      LookupCarries(a, b, n);
    }
    forall n ensures n in PairsMap(b) ==> n in PairsMap(a) {
      LookupCarries(b, a, n);
    }
  }

  // ----- Each representation answers from its map -----

  ghost predicate FromSlot(p: RefPair, base: nat, slots: seq<nat>) {
    && p.fileRef.sequence == 0
    && base <= p.Number() < base + |slots|
    && p.idx == slots[p.Number() - base] && p.idx != MISSING_INDEX
  }

  lemma {:induction false} DensePairsShape(base: nat, slots: seq<nat>)
    ensures StrictlySorted(DensePairs(base, slots))
    ensures forall p :: p in DensePairs(base, slots) <==> FromSlot(p, base, slots)
  {
    if slots != [] {
      var last := |slots| - 1;
      var init := slots[..last];
      DensePairsShape(base, init);
      forall i | 0 <= i < |DensePairs(base, init)| ensures DensePairs(base, init)[i].Number() < base + last {
        assert DensePairs(base, init)[i] in DensePairs(base, init);
      }
      var p := RefPair(FileRef(0, base + last), slots[last]);
      forall q ensures q in DensePairs(base, slots) <==> FromSlot(q, base, slots) {
        assert FromSlot(q, base, slots) <==> FromSlot(q, base, init) || (q == p && p.idx != MISSING_INDEX);
      }
    }
  }

  lemma {:induction false} BinarySearchFinds(entries: seq<RefPair>, number: nat, lo: nat, hi: nat)
    requires lo <= hi <= |entries| && StrictlySorted(entries)
    ensures forall i :: lo <= i < hi && entries[i].Number() == number ==>
              BinarySearch(entries, number, lo, hi) == Some(entries[i].idx)
    ensures (forall i :: lo <= i < hi ==> entries[i].Number() != number) ==>
              BinarySearch(entries, number, lo, hi) == None
    decreases hi - lo
  {
    if lo < hi {
      var mid := (lo + hi) / 2;
      BinarySearchFinds(entries, number, mid + 1, hi);
      BinarySearchFinds(entries, number, lo, mid);
    }
  }

  /** Looking up a number asks the finite map of the stored pairs, in either form. */
  lemma GetIsMapLookup(m: FileRefMap, number: nat)
    requires Valid(m)
    ensures DistinctNumbers(Pairs(m))
    ensures GetNumber(m, number) == MapGet(PairsMap(Pairs(m)), number)
  {
    var ps := Pairs(m);
    match m {
      case Empty =>
      case Dense(base, slots) =>
        DenseGetIsMapLookup(base, slots, number);
      case Sorted(entries) =>
        BinarySearchFinds(entries, number, 0, |entries|);
        if number in PairsMap(ps) {
          var p := PairsMapSource(ps, number);
        } else if i :| 0 <= i < |ps| && ps[i].Number() == number {
          PairsMapAt(ps, i);
        }
    }
  }

  lemma DenseGetIsMapLookup(base: nat, slots: seq<nat>, number: nat)
    ensures DistinctNumbers(DensePairs(base, slots))
    ensures GetNumber(Dense(base, slots), number) == MapGet(PairsMap(DensePairs(base, slots)), number)
  {
    var ps := DensePairs(base, slots);
    assert DistinctNumbers(ps) by { DensePairsShape(base, slots); }
    if number in PairsMap(ps) {
      var p := PairsMapSource(ps, number);
      assert FromSlot(p, base, slots) by { DensePairsShape(base, slots); }
    } else if GetNumber(Dense(base, slots), number).Some? {
      var p := RefPair(FileRef(0, number), slots[number - base]);
      assert p in ps by { DensePairsShape(base, slots); assert FromSlot(p, base, slots); }
      PairHasEntry(ps, p);
    }
  }

  lemma PairHasEntry(ps: seq<RefPair>, p: RefPair)
    requires DistinctNumbers(ps) && p in ps
    ensures MapGet(PairsMap(ps), p.Number()) == Some(p.idx)
  {
    var i :| 0 <= i < |ps| && ps[i] == p;
    PairsMapAt(ps, i);
  }

  // ----- Building -----

  lemma {:induction false} FillSlotsIsMap(ps: seq<RefPair>, first: nat, span: nat)
    requires forall i :: 0 <= i < |ps| ==> first <= ps[i].Number() < first + span
    ensures forall k :: 0 <= k < span ==>
              FillSlots(ps, first, span)[k] ==
              if first + k in PairsMap(ps) then PairsMap(ps)[first + k] else MISSING_INDEX
  {
    if ps != [] {
      FillSlotsIsMap(ps[..|ps| - 1], first, span);
    }
  }

  lemma {:induction false} InsertByNumberSorts(sorted: seq<RefPair>, p: RefPair)
    requires StrictlySorted(sorted)
    requires forall i :: 0 <= i < |sorted| ==> sorted[i].Number() != p.Number()
    ensures StrictlySorted(InsertByNumber(sorted, p))
    ensures forall q :: q in InsertByNumber(sorted, p) <==> q in sorted || q == p
  {
    if sorted != [] && sorted[0].Number() < p.Number() {
      var rest := sorted[1..];
      InsertByNumberSorts(rest, p);
      var tail := InsertByNumber(rest, p);
      forall q ensures q in InsertByNumber(sorted, p) <==> q in sorted || q == p {
        assert q in sorted <==> q == sorted[0] || q in rest;
      }
      forall i | 0 <= i < |tail| ensures sorted[0].Number() < tail[i].Number() {
        assert tail[i] in tail;
      }
    }
  }

  lemma {:induction false} SortByNumberSorts(ps: seq<RefPair>)
    requires DistinctNumbers(ps)
    ensures StrictlySorted(SortByNumber(ps))
    ensures forall q :: q in SortByNumber(ps) <==> q in ps
  {
    if ps != [] {
      var init, p := ps[..|ps| - 1], ps[|ps| - 1];
      SortByNumberSorts(init);
      var sorted := SortByNumber(init);
      forall i | 0 <= i < |sorted| ensures sorted[i].Number() != p.Number() {
        assert sorted[i] in init;
      }
      InsertByNumberSorts(sorted, p);
      assert ps == init + [p];
    }
  }

  lemma FilledSlotsAnswer(ps: seq<RefPair>, first: nat, span: nat, n: nat)
    requires forall i :: 0 <= i < |ps| ==> first <= ps[i].Number() < first + span
    requires IndicesFit(ps)
    ensures GetNumber(Dense(first, FillSlots(ps, first, span)), n) == MapGet(PairsMap(ps), n)
  {
    FillSlotsIsMap(ps, first, span);
    if n in PairsMap(ps) {
      var p := PairsMapSource(ps, n);
    }
  }

  lemma DenseKeepsMap(ps: seq<RefPair>)
    requires IndicesFit(ps) && ps != [] && UsesDense(ps)
    ensures Valid(FromPairs(ps))
    ensures PairsMap(Pairs(FromPairs(ps))) == PairsMap(ps)
  {
    var first, span := Lowest(ps), Highest(ps) - Lowest(ps) + 1;
    FillSlotsIsMap(ps, first, span);
    forall k | 0 <= k < span ensures FillSlots(ps, first, span)[k] <= MISSING_INDEX {
      if first + k in PairsMap(ps) {
        var p := PairsMapSource(ps, first + k);
      }
    }
    var back := PairsMap(Pairs(FromPairs(ps)));
    forall n ensures MapGet(back, n) == MapGet(PairsMap(ps), n) {
      GetIsMapLookup(FromPairs(ps), n);
      FilledSlotsAnswer(ps, first, span, n);
    }
    SameLookupsSameMap(back, PairsMap(ps));
  }

  lemma SameLookupsSameMap(a: map<nat, nat>, b: map<nat, nat>)
    requires forall n :: MapGet(a, n) == MapGet(b, n)
    ensures a == b
  {
    forall n ensures (n in a <==> n in b) && (n in a ==> a[n] == b[n]) {
      assert MapGet(a, n) == MapGet(b, n);
    }
  }

  /** `from_pairs` builds a valid table that stands for the same map, whichever form it picks. */
  lemma FromPairsKeepsMap(ps: seq<RefPair>)
    requires DistinctNumbers(ps) && IndicesFit(ps)
    ensures Valid(FromPairs(ps))
    ensures PairsMap(Pairs(FromPairs(ps))) == PairsMap(ps)
    ensures forall n :: GetNumber(FromPairs(ps), n) == MapGet(PairsMap(ps), n)
  {
    if ps != [] && UsesDense(ps) {
      DenseKeepsMap(ps);
    } else if ps != [] {
      SortByNumberSorts(ps);
      var sorted := SortByNumber(ps);
      forall i | 0 <= i < |sorted| ensures sorted[i].idx < MISSING_INDEX {
        assert sorted[i] in ps;
      }
      SamePairsSameMap(sorted, ps);
    }
    forall n ensures GetNumber(FromPairs(ps), n) == MapGet(PairsMap(ps), n) {
      GetIsMapLookup(FromPairs(ps), n);
    }
  }

  /** Exporting the pairs and rebuilding, as the cache does, keeps every lookup. */
  lemma RebuildKeepsLookups(m: FileRefMap, number: nat)
    requires Valid(m)
    ensures Valid(FromPairs(Pairs(m)))
    ensures GetNumber(FromPairs(Pairs(m)), number) == GetNumber(m, number)
  {
    GetIsMapLookup(m, number);
    PairsFit(m);
    FromPairsKeepsMap(Pairs(m));
  }

  lemma PairsFit(m: FileRefMap)
    requires Valid(m)
    ensures IndicesFit(Pairs(m))
  {
    match m {
      case Empty =>
      case Dense(base, slots) =>
        DensePairsShape(base, slots);
        forall i | 0 <= i < |Pairs(m)| ensures Pairs(m)[i].idx < MISSING_INDEX {
          assert Pairs(m)[i] in Pairs(m);
          assert FromSlot(Pairs(m)[i], base, slots);
        }
      case Sorted(entries) =>
    }
  }

  // ----- Updates -----

  lemma {:induction false} UpsertIsUpdate(ps: seq<RefPair>, fileRef: FileRef, idx: nat)
    requires DistinctNumbers(ps)
    ensures DistinctNumbers(Upsert(ps, fileRef, idx))
    ensures forall q: RefPair :: q.Number() != MftRecordNumber(fileRef) ==>
              (q in Upsert(ps, fileRef, idx) <==> q in ps)
    ensures exists q: RefPair ::
              q in Upsert(ps, fileRef, idx) && q.Number() == MftRecordNumber(fileRef)
    ensures forall q: RefPair :: q in Upsert(ps, fileRef, idx) ==>
              q.Number() == MftRecordNumber(fileRef) ==> q.idx == idx
    ensures forall q: RefPair :: q in Upsert(ps, fileRef, idx) ==> q.idx == idx || q in ps
  {
    var number := MftRecordNumber(fileRef);
    var up := Upsert(ps, fileRef, idx);
    if ps == [] {
      assert up[0] in up;
    } else if ps[0].Number() == number {
      assert up[0] in up;
      forall q: RefPair | q in ps[1..] ensures q.Number() != number {}
      forall q: RefPair ensures q in ps <==> q == ps[0] || q in ps[1..] {}
      forall q: RefPair ensures q in up <==> q == up[0] || q in ps[1..] {}
    } else {
      UpsertIsUpdate(ps[1..], fileRef, idx);
      var rest := Upsert(ps[1..], fileRef, idx);
      forall q: RefPair ensures q in ps <==> q == ps[0] || q in ps[1..] {}
      forall q: RefPair ensures q in up <==> q == ps[0] || q in rest {}
      forall i | 0 <= i < |rest| ensures rest[i].Number() != ps[0].Number() {
        assert rest[i] in rest;
        if rest[i].Number() != number { assert rest[i] in ps[1..]; }
      }
    }
  }

  /** Inserting updates the map at one number, even when the table switches form. */
  lemma InsertIsMapUpdate(m: FileRefMap, fileRef: FileRef, idx: nat)
    requires Valid(m) && idx < MISSING_INDEX
    ensures Valid(Insert(m, fileRef, idx))
    ensures forall n :: GetNumber(Insert(m, fileRef, idx), n) ==
                        if n == MftRecordNumber(fileRef) then Some(idx) else GetNumber(m, n)
  {
    var ps := Pairs(m);
    var up := Upsert(ps, fileRef, idx);
    GetIsMapLookup(m, 0);
    PairsFit(m);
    UpsertIsUpdate(ps, fileRef, idx);
    forall i | 0 <= i < |up| ensures up[i].idx < MISSING_INDEX {
      assert up[i] in up;
    }
    FromPairsKeepsMap(up);
    forall n ensures GetNumber(Insert(m, fileRef, idx), n) ==
                     if n == MftRecordNumber(fileRef) then Some(idx) else GetNumber(m, n)
    {
      GetIsMapLookup(m, n);
      if n == MftRecordNumber(fileRef) {
        var q: RefPair :| q in up && q.Number() == n;
        PairHasEntry(up, q);
      } else {
        LookupCarries(ps, up, n);
        LookupCarries(up, ps, n);
      }
    }
  }

  lemma {:induction false} WithoutIsFilter(ps: seq<RefPair>, number: nat)
    requires DistinctNumbers(ps)
    ensures DistinctNumbers(Without(ps, number))
    ensures forall q: RefPair :: q in Without(ps, number) <==> q in ps && q.Number() != number
  {
    if ps != [] {
      WithoutIsFilter(ps[1..], number);
      var rest := Without(ps[1..], number);
      forall q: RefPair ensures q in ps <==> q == ps[0] || q in ps[1..] {}
      forall i | 0 <= i < |rest| ensures rest[i].Number() != ps[0].Number() {
        assert rest[i] in rest;
        assert rest[i] in ps[1..];
      }
    }
  }

  /** Removing deletes one number from the map and nothing else. */
  lemma RemoveIsMapDelete(m: FileRefMap, fileRef: FileRef)
    requires Valid(m)
    ensures Valid(Remove(m, fileRef))
    ensures forall n :: GetNumber(Remove(m, fileRef), n) ==
                        if n == MftRecordNumber(fileRef) then None else GetNumber(m, n)
  {
    var ps := Pairs(m);
    var left := Without(ps, MftRecordNumber(fileRef));
    GetIsMapLookup(m, 0);
    PairsFit(m);
    WithoutIsFilter(ps, MftRecordNumber(fileRef));
    forall i | 0 <= i < |left| ensures left[i].idx < MISSING_INDEX {
      assert left[i] in left;
    }
    FromPairsKeepsMap(left);
    forall n ensures GetNumber(Remove(m, fileRef), n) ==
                     if n == MftRecordNumber(fileRef) then None else GetNumber(m, n)
    {
      GetIsMapLookup(m, n);
      if n == MftRecordNumber(fileRef) {
        if n in PairsMap(left) {
          var p := PairsMapSource(left, n);
        }
      } else {
        LookupCarries(ps, left, n);
        LookupCarries(left, ps, n);
      }
    }
  }

  /** A table is dense if and only if its numbers span at most four places for each pair, or at most 1024. */
  lemma DenseIffNarrow(ps: seq<RefPair>, lo: nat, hi: nat)
    requires lo < |ps| && hi < |ps|
    requires forall i :: 0 <= i < |ps| ==> ps[lo].Number() <= ps[i].Number() <= ps[hi].Number()
    ensures var span := ps[hi].Number() - ps[lo].Number() + 1;
            && (FromPairs(ps).Dense? <==> span <= 4 * |ps| || span <= 1024)
            && (FromPairs(ps).Dense? ==> |FromPairs(ps).slots| == span && FromPairs(ps).baseRecordNumber == ps[lo].Number())
            && (!FromPairs(ps).Dense? ==> FromPairs(ps).Sorted?)
  {
    var i :| 0 <= i < |ps| && Lowest(ps) == ps[i].Number();
    var j :| 0 <= j < |ps| && Highest(ps) == ps[j].Number();
  }
}
