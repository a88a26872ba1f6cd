/**
 Which scores a bounded selection keeps. A list is measured by how many of its
 scores reach each threshold; keeping the best `cap` scores means capping every
 one of those counts.
 */
module TopScores {
  import opened Basics

  /** How many scores are at least `t`. */
  function CountGe(s: seq<nat>, t: nat): (c: nat)
    ensures c <= |s|
  {
    if s == [] then 0 else CountGe(s[..|s| - 1], t) + if s[|s| - 1] >= t then 1 else 0
  }

  /** The scores of a list of scored things. */
  function PointsOf<T>(s: seq<T>, points: T -> nat): (ps: seq<nat>)
    ensures |ps| == |s| && forall k :: 0 <= k < |s| ==> ps[k] == points(s[k])
  {
    seq(|s|, i requires 0 <= i < |s| => points(s[i]))
  }

  lemma PointsConcat<T>(a: seq<T>, b: seq<T>, points: T -> nat)
    ensures PointsOf(a + b, points) == PointsOf(a, points) + PointsOf(b, points)
  {}

  function Truncate<T>(s: seq<T>, limit: nat): seq<T> { s[..Min(limit, |s|)] }

  lemma PointsTruncate<T>(s: seq<T>, points: T -> nat, limit: nat)
    ensures PointsOf(Truncate(s, limit), points) == Truncate(PointsOf(s, points), limit)
  {}

  function DropAt<T>(s: seq<T>, j: nat): seq<T>
    requires j < |s|
  {
    s[..j] + s[j + 1..]
  }

  lemma MultisetDropAt<T>(s: seq<T>, j: nat)
    requires j < |s|
    ensures multiset(s) == multiset(DropAt(s, j)) + multiset{s[j]}
  {
    assert s == s[..j] + [s[j]] + s[j + 1..];
  }

  lemma PointsDropAt<T>(s: seq<T>, j: nat, points: T -> nat)
    requires j < |s|
    ensures multiset(PointsOf(s, points)) == multiset(PointsOf(DropAt(s, j), points)) + multiset{points(s[j])}
  {
    var ps := PointsOf(s, points);
    assert PointsOf(DropAt(s, j), points) == DropAt(ps, j);
    MultisetDropAt(ps, j);
  }

  lemma MultisetCancel<T>(a: multiset<T>, b: multiset<T>, x: T)
    requires a + multiset{x} == b + multiset{x}
    ensures a == b
  {
    forall y ensures a[y] == b[y] {
      assert (a + multiset{x})[y] == (b + multiset{x})[y];
    }
  }

  lemma SameTailBag<T>(a: seq<T>, b: seq<T>, i: nat, j: nat)
    requires multiset(a) == multiset(b) && i < |a| && j < |b| && a[i] == b[j]
    ensures multiset(DropAt(a, i)) == multiset(DropAt(b, j))
  {
    MultisetDropAt(a, i);
    MultisetDropAt(b, j);
    MultisetCancel(multiset(DropAt(a, i)), multiset(DropAt(b, j)), a[i]);
  }

  /** Rearranging a list rearranges its scores. */
  lemma {:induction false} PointsPermutation<T>(a: seq<T>, b: seq<T>, points: T -> nat)
    requires multiset(a) == multiset(b)
    ensures multiset(PointsOf(a, points)) == multiset(PointsOf(b, points))
    decreases |a|
  {
    if a == [] {
      assert |multiset(b)| == |b|;
    } else {
      assert a[0] in multiset(b);
      var j :| 0 <= j < |b| && b[j] == a[0];
      SameTailBag(a, b, 0, j);
      PointsPermutation(DropAt(a, 0), DropAt(b, j), points);
      PointsDropAt(a, 0, points);
      PointsDropAt(b, j, points);
    }
  }

  /** `kept` holds exactly the `cap` highest scores of `all`, as a multiset. */
  ghost predicate KeepsTop(kept: seq<nat>, all: seq<nat>, cap: nat) {
    forall t: nat :: CapsCount(kept, all, cap, t)
  }

  ghost predicate CapsCount(kept: seq<nat>, all: seq<nat>, cap: nat, t: nat) {
    CountGe(kept, t) == Min(cap, CountGe(all, t))
  }

  lemma {:induction false} CountGeConcat(a: seq<nat>, b: seq<nat>, t: nat)
    ensures CountGe(a + b, t) == CountGe(a, t) + CountGe(b, t)
    decreases |b|
  {
    if b == [] {
      assert a + b == a;
    } else {
      assert (a + b)[..|a + b| - 1] == a + b[..|b| - 1];
      CountGeConcat(a, b[..|b| - 1], t);
    }
  }

  lemma CountGeUpdate(s: seq<nat>, pos: nat, x: nat, t: nat)
    requires pos < |s|
    ensures CountGe(s[pos := x], t) + (if s[pos] >= t then 1 else 0) == CountGe(s, t) + if x >= t then 1 else 0
  {
    var before, after := s[..pos], s[pos + 1..];
    assert s == before + [s[pos]] + after;
    assert s[pos := x] == before + [x] + after;
    CountGeConcat(before + [s[pos]], after, t);
    CountGeConcat(before + [x], after, t);
    CountGeConcat(before, [s[pos]], t);
    CountGeConcat(before, [x], t);
  }

  lemma {:induction false} CountGeAll(s: seq<nat>, t: nat)
    ensures (forall i :: 0 <= i < |s| ==> s[i] >= t) <==> CountGe(s, t) == |s|
  {
    if s != [] {
      CountGeAll(s[..|s| - 1], t);
    }
  }

  /** Scores of one value are counted by the difference of two thresholds. */
  lemma {:induction false} CountOfScore(s: seq<nat>, x: nat)
    ensures multiset(s)[x] == CountGe(s, x) - CountGe(s, x + 1)
  {
    if s != [] {
      assert s == s[..|s| - 1] + [s[|s| - 1]];
      CountOfScore(s[..|s| - 1], x);
    }
  }

  /** Equal counts at every threshold mean equal multisets of scores. */
  lemma CountsDetermineScores(a: seq<nat>, b: seq<nat>)
    requires forall t: nat :: CountGe(a, t) == CountGe(b, t)
    ensures multiset(a) == multiset(b)
  {
    forall x: nat ensures multiset(a)[x] == multiset(b)[x] {
      CountOfScore(a, x);
      CountOfScore(b, x);
    }
  }

  lemma CountGeDropAt(s: seq<nat>, j: nat, t: nat)
    requires j < |s|
    ensures CountGe(s, t) == CountGe(DropAt(s, j), t) + if s[j] >= t then 1 else 0
  {
    assert s == s[..j] + [s[j]] + s[j + 1..];
    CountGeConcat(s[..j] + [s[j]], s[j + 1..], t);
    CountGeConcat(s[..j], [s[j]], t);
    CountGeConcat(s[..j], s[j + 1..], t);
  }

  lemma {:induction false} CountGePermutation(a: seq<nat>, b: seq<nat>, t: nat)
    requires multiset(a) == multiset(b)
    ensures CountGe(a, t) == CountGe(b, t)
    decreases |a|
  {
    if a == [] {
      assert |multiset(b)| == |b|;
    } else {
      assert a[0] in multiset(b);
      var j :| 0 <= j < |b| && b[j] == a[0];
      SameTailBag(a, b, 0, j);
      CountGePermutation(DropAt(a, 0), DropAt(b, j), t);
      CountGeDropAt(a, 0, t);
      CountGeDropAt(b, j, t);
    }
  }

  // ----- The bounded insert -----

  function MinScore(heap: seq<nat>): (m: nat)
    requires heap != []
    ensures m in heap && forall i :: 0 <= i < |heap| ==> m <= heap[i]
  {
    var last := heap[|heap| - 1];
    if |heap| == 1 then last
    else
      var rest := MinScore(heap[..|heap| - 1]);
      if last < rest then last else rest
  }

  function FirstPosition(heap: seq<nat>, x: nat): (pos: nat)
    requires x in heap
    ensures pos < |heap| && heap[pos] == x
  {
    if heap[0] == x then 0 else 1 + FirstPosition(heap[1..], x)
  }

  /** Where `insert_top_n` puts a new score: at the end, over the first minimum, or nowhere. */
  datatype Slot = Append | Replace(pos: nat) | Drop

  function SlotFor(heap: seq<nat>, score: nat, cap: nat): (slot: Slot)
    ensures slot.Replace? ==> slot.pos < |heap|
  {
    if |heap| < cap then Append
    else if heap != [] && score > MinScore(heap) then Replace(FirstPosition(heap, MinScore(heap)))
    else Drop
  }

  function InsertScore(heap: seq<nat>, score: nat, cap: nat): seq<nat> {
    match SlotFor(heap, score, cap)
    case Append => heap + [score]
    case Replace(pos) => heap[pos := score]
    case Drop => heap
  }

  lemma InsertCapsCount(heap: seq<nat>, all: seq<nat>, score: nat, cap: nat, t: nat)
    requires KeepsTop(heap, all, cap)
    ensures CapsCount(InsertScore(heap, score, cap), all + [score], cap, t)
  {
    assert CapsCount(heap, all, cap, t) && CapsCount(heap, all, cap, 0);
    CountGeAll(heap, 0);
    CountGeAll(heap, t);
    assert (all + [score])[..|all|] == all;
    match SlotFor(heap, score, cap) {
      case Append =>
        assert (heap + [score])[..|heap|] == heap;
      case Replace(pos) =>
        CountGeUpdate(heap, pos, score, t);
      case Drop =>
        if heap != [] && t <= score { assert forall i :: 0 <= i < |heap| ==> heap[i] >= t; }
    }
  }

  /** One bounded insert keeps the best `cap` scores of the longer stream. */
  lemma InsertKeepsTop(heap: seq<nat>, all: seq<nat>, score: nat, cap: nat)
    requires KeepsTop(heap, all, cap)
    ensures KeepsTop(InsertScore(heap, score, cap), all + [score], cap)
  {
    forall t: nat ensures CapsCount(InsertScore(heap, score, cap), all + [score], cap, t) {
      InsertCapsCount(heap, all, score, cap, t);
    }
  }

  // ----- Truncation and merging -----

  ghost predicate Descending(s: seq<nat>) { forall i, j :: 0 <= i < j < |s| ==> s[i] >= s[j] }

  lemma TruncateKeepsTop(s: seq<nat>, k: nat)
    requires Descending(s)
    ensures KeepsTop(Truncate(s, k), s, k)
  {
    if |s| <= k {
      assert s[..|s|] == s;
    } else {
      var head, tail := s[..k], s[k..];
      assert s == head + tail;
      forall t: nat ensures CapsCount(head, s, k, t) {
        CountGeConcat(head, tail, t);
        if CountGe(tail, t) > 0 {
          SomeReaches(tail, t);
          CountGeAll(head, t);
        }
      }
    }
  }

  lemma {:induction false} SomeReaches(s: seq<nat>, t: nat)
    requires CountGe(s, t) > 0
    ensures exists i :: 0 <= i < |s| && s[i] >= t
  {
    if s[|s| - 1] < t {
      SomeReaches(s[..|s| - 1], t);
    }
  }

  /** Selecting from a selection: a looser first cut does not change a tighter second one. */
  lemma KeepsTopOfTop(kept: seq<nat>, middle: seq<nat>, all: seq<nat>, k: nat, cap: nat)
    requires KeepsTop(middle, all, cap) && KeepsTop(kept, middle, k) && k <= cap
    ensures KeepsTop(kept, all, k)
  {
    forall t: nat ensures CapsCount(kept, all, k, t) {
      assert CapsCount(middle, all, cap, t) && CapsCount(kept, middle, k, t);
    }
  }

  /** Cutting two streams separately before a joint cut loses nothing the joint cut would keep. */
  lemma KeepsTopOfParts(kept: seq<nat>, a: seq<nat>, b: seq<nat>, allA: seq<nat>, allB: seq<nat>, k: nat, capA: nat, capB: nat)
    requires KeepsTop(a, allA, capA) && KeepsTop(b, allB, capB) && k <= capA && k <= capB
    requires KeepsTop(kept, a + b, k)
    ensures KeepsTop(kept, allA + allB, k)
  {
    forall t: nat ensures CapsCount(kept, allA + allB, k, t) {
      assert CapsCount(a, allA, capA, t) && CapsCount(b, allB, capB, t) && CapsCount(kept, a + b, k, t);
      CountGeConcat(a, b, t);
      CountGeConcat(allA, allB, t);
    }
  }

  lemma KeepsTopRefl(s: seq<nat>, k: nat)
    requires |s| <= k
    ensures KeepsTop(s, s, k)
  {
    forall t: nat ensures CapsCount(s, s, k, t) {}
  }

  lemma KeepsTopPermutation(kept: seq<nat>, a: seq<nat>, b: seq<nat>, k: nat)
    requires KeepsTop(kept, a, k) && multiset(a) == multiset(b)
    ensures KeepsTop(kept, b, k)
  {
    forall t: nat ensures CapsCount(kept, b, k, t) {
      assert CapsCount(kept, a, k, t);
      CountGePermutation(a, b, t);
    }
  }

  /** Two exact selections of one stream hold the same scores. */
  lemma TopScoresUnique(a: seq<nat>, b: seq<nat>, all: seq<nat>, k: nat)
    requires KeepsTop(a, all, k) && KeepsTop(b, all, k)
    ensures multiset(a) == multiset(b)
  {
    forall t: nat ensures CountGe(a, t) == CountGe(b, t) {
      assert CapsCount(a, all, k, t) && CapsCount(b, all, k, t);
    }
    CountsDetermineScores(a, b);
  }
}
