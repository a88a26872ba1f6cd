/** Shared idiom: options, results and ascending lists of indices. */
module Basics {

  /** Largest values of the machine widths, and how many 64-bit values there are. */
  const U16_MAX: nat := 0xFFFF
  const U32_MAX: nat := 0xFFFF_FFFF
  const U64: nat := 0x1_0000_0000_0000_0000
  const U64_MAX: nat := 0xFFFF_FFFF_FFFF_FFFF

  datatype Option<+T> = None | Some(value: T)

  datatype Result<+T, +E> = Ok(value: T) | Err(error: E)

  function Min(a: nat, b: nat): nat { if a <= b then a else b }

  function Max(a: nat, b: nat): nat { if a <= b then b else a }

  ghost predicate Ascending(s: seq<nat>) {
    forall i, j :: 0 <= i < j < |s| ==> s[i] < s[j]
  }

  ghost predicate Distinct<T>(s: seq<T>) {
    forall i, j :: 0 <= i < j < |s| ==> s[i] != s[j]
  }

  /** The ascending list of the indices in [lo, hi) that satisfy `keep`. */
  function Select(lo: nat, hi: nat, keep: nat -> bool): (s: seq<nat>)
    ensures forall i :: i in s <==> lo <= i < hi && keep(i)
    ensures Ascending(s)
    decreases hi - lo
  {
    if lo >= hi then []
    else
      var rest := Select(lo + 1, hi, keep);
      assert forall i :: 0 <= i < |rest| ==> rest[i] in rest;
      if keep(lo) then [lo] + rest else rest
  }

  lemma {:induction false} SelectSnoc(lo: nat, hi: nat, keep: nat -> bool)
    requires lo <= hi
    ensures Select(lo, hi + 1, keep) == Select(lo, hi, keep) + if keep(hi) then [hi] else []
    decreases hi - lo
  {
    if lo < hi {
      SelectSnoc(lo + 1, hi, keep);
    } else {
      assert Select(hi + 1, hi + 1, keep) == [];
    }
  }

  /** A list without repetition is no longer than the set it draws from. */
  lemma {:induction false} DistinctFits<T>(s: seq<T>, pool: set<T>)
    requires Distinct(s)
    requires forall x :: x in s ==> x in pool
    ensures |s| <= |pool|
    decreases |s|
  {
    if s != [] {
      var rest := s[1..];
      forall x | x in rest ensures x in pool - {s[0]} {
        assert x in s;
      }
      assert s[0] in s;
      DistinctFits(rest, pool - {s[0]});
    }
  }

  function FirstNumbers(n: nat): (all: set<nat>)
    ensures |all| == n && forall i: nat :: i in all <==> i < n
  {
    if n == 0 then {} else FirstNumbers(n - 1) + {n - 1}
  }

  lemma {:induction false} DistinctOnce<T>(s: seq<T>, x: T)
    requires Distinct(s)
    ensures multiset(s)[x] == if x in s then 1 else 0
  {
    if s != [] {
      var init, last := s[..|s| - 1], s[|s| - 1];
      assert s == init + [last];
      DistinctOnce(init, x);
      assert x in s <==> x in init || x == last;
    }
  }

  /** How often a list holds an element. */
  function Times(s: seq<nat>, x: nat): nat { multiset(s)[x] }

  lemma OnceIsDistinct(s: seq<nat>)
    requires forall x: nat :: Times(s, x) <= 1
    ensures Distinct(s)
  {
    forall i, j | 0 <= i < j < |s| ensures s[i] != s[j] {
      assert Times(s, s[i]) <= 1;
      assert s == s[..j] + s[j..];
      assert s[..j][i] in multiset(s[..j]) && s[j..][0] in multiset(s[j..]);
    }
  }
}
