/**
 Queries of no, one or two characters (search/prefix.rs, index.rs): the empty
 query lists the first records, a short one looks its base records up in buckets
 keyed by the first two characters of their folded names.
 */
module ShortQueries {
  import opened Basics
  import opened Overlay
  import opened Matching
  import opened TopScores
  import opened Search
  import opened Ranking

  const SHORT_QUERY_CHARS: nat := 2

  /** The longest prefix of at most `k` characters. */
  function FirstChars(s: string, k: nat): (first: string)
    ensures first <= s && CharCount(first) <= k
  {
    if CharCount(s) <= k then s else FirstChars(s[..|s| - 1], k)
  }

  lemma {:induction false} FirstCharsIsLongest(s: string, k: nat, prefix: string)
    requires prefix <= s && CharCount(prefix) <= k
    ensures prefix <= FirstChars(s, k)
  {
    if CharCount(s) > k {
      assert prefix != s;
      FirstCharsIsLongest(s[..|s| - 1], k, prefix);
    }
  }

  // ----- Buckets in the order of their keys -----

  datatype Bucket = Bucket(key: string, ids: seq<nat>)

  predicate Before(a: string, b: string)
    decreases |a|
  {
    b != "" && (a == "" || a[0] < b[0] || (a[0] == b[0] && Before(a[1..], b[1..])))
  }

  function AddId(buckets: seq<Bucket>, key: string, id: nat): seq<Bucket> {
    if buckets == [] || Before(key, buckets[0].key) then [Bucket(key, [id])] + buckets
    else if buckets[0].key == key then [Bucket(key, buckets[0].ids + [id])] + buckets[1..]
    else [buckets[0]] + AddId(buckets[1..], key, id)
  }

  function AddName(buckets: seq<Bucket>, folded: string, id: nat): seq<Bucket> {
    var key := FirstChars(folded, SHORT_QUERY_CHARS);
    if key == "" then buckets else AddId(buckets, key, id)
  }

  /** Ids of all buckets whose key begins with the query. */
  function CandidatesOf(buckets: seq<Bucket>, query: string): seq<nat> {
    if buckets == [] then []
    else (if query <= buckets[0].key then buckets[0].ids else []) + CandidatesOf(buckets[1..], query)
  }

  /** The buckets of the first `k` base records. */
  function BucketsUpTo(b: Base, fold: Fold, k: nat): seq<Bucket> {
    if k == 0 then []
    else match BaseName(b, k - 1)
      case Ok(name) => AddName(BucketsUpTo(b, fold, k - 1), fold(name), k - 1)
      case Err(_) => BucketsUpTo(b, fold, k - 1)
  }

  function BucketsOf(b: Base, fold: Fold): seq<Bucket> { BucketsUpTo(b, fold, |b.records|) }

  class PrefixIndex {
    var buckets: seq<Bucket>

    constructor ()
      ensures buckets == []
    {
      buckets := [];
    }

    method Add(folded: string, id: nat)
      modifies this
      ensures buckets == AddName(old(buckets), folded, id)
    {
      var key := FirstChars(folded, SHORT_QUERY_CHARS);
      if key != "" { buckets := AddId(buckets, key, id); }
    }

    /** Register every base record under its folded name. */
    method AddAll(b: Base, fold: Fold)
      requires buckets == []
      modifies this
      ensures buckets == BucketsOf(b, fold)
    {
      for k := 0 to |b.records|
        invariant buckets == BucketsUpTo(b, fold, k)
      {
        var name := BaseName(b, k);
        if name.Ok? { Add(fold(name.value), k); }
      }
    }

    method Candidates(query: string) returns (ids: seq<nat>)
      ensures ids == CandidatesOf(buckets, query)
    {
      ids := [];
      for k := 0 to |buckets|
        invariant CandidatesOf(buckets, query) == ids + CandidatesOf(buckets[k..], query)
      {
        CandidatesStep(buckets, query, k, ids);
        if query <= buckets[k].key { ids := ids + buckets[k].ids; }
      }
    }
  }

  lemma CandidatesStep(buckets: seq<Bucket>, query: string, k: nat, ids: seq<nat>)
    requires k < |buckets|
    ensures ids + CandidatesOf(buckets[k..], query) ==
            (if query <= buckets[k].key then ids + buckets[k].ids else ids) + CandidatesOf(buckets[k + 1..], query)
  {
    var rest := CandidatesOf(buckets[k + 1..], query);
    assert buckets[k..][1..] == buckets[k + 1..];
    assert ids + (buckets[k].ids + rest) == (ids + buckets[k].ids) + rest;
    assert [] + rest == rest;
  }

  // ----- The order of the buckets -----

  /** The texts agree up to `n`, where one ends or has the smaller unit. */
  predicate LessAt(a: string, b: string, n: nat) {
    n <= |a| && n < |b| && a[..n] == b[..n] && (n == |a| || a[n] < b[n])
  }

  ghost predicate Less(a: string, b: string) { exists n: nat :: LessAt(a, b, n) }

  lemma FirstUnitsAgree(a: string, b: string, n: nat)
    ensures n > 0 && LessAt(a, b, n) ==> a[0] == b[0]
  {
    if n > 0 && LessAt(a, b, n) { assert a[..n][0] == b[..n][0]; }
  }

  lemma {:induction false} BeforeIsLess(a: string, b: string)
    ensures Before(a, b) <==> Less(a, b)
    decreases |a|
  {
    if a != "" && b != "" && a[0] == b[0] {
      BeforeIsLess(a[1..], b[1..]);
      if n: nat :| LessAt(a[1..], b[1..], n) {
        assert a[..n + 1] == [a[0]] + a[1..][..n] && b[..n + 1] == [b[0]] + b[1..][..n];
        assert LessAt(a, b, n + 1);
      }
      if n: nat :| LessAt(a, b, n) {
        assert a[1..][..n - 1] == a[..n][1..] && b[1..][..n - 1] == b[..n][1..];
        assert LessAt(a[1..], b[1..], n - 1);
      }
    } else {
      if Before(a, b) { assert LessAt(a, b, 0); }
      forall n: nat ensures LessAt(a, b, n) ==> Before(a, b) { FirstUnitsAgree(a, b, n); }
    }
  }

  lemma {:induction false} BeforeTransitive(a: string, b: string, c: string)
    requires Before(a, b) && Before(b, c)
    ensures Before(a, c)
    decreases |a|
  {
    if a != "" && b != "" && c != "" && a[0] == b[0] == c[0] {
      BeforeTransitive(a[1..], b[1..], c[1..]);
    }
  }

  lemma {:induction false} OneIsBefore(a: string, b: string)
    ensures Before(a, b) || a == b || Before(b, a)
    decreases |a|
  {
    if a != "" && b != "" && a[0] == b[0] {
      OneIsBefore(a[1..], b[1..]);
      if a[1..] == b[1..] { assert a == [a[0]] + a[1..] && b == [b[0]] + b[1..]; }
    }
  }

  /** Each key stands before the next one. */
  predicate KeysAscend(buckets: seq<Bucket>) {
    forall k :: 0 < k < |buckets| ==> Before(buckets[k - 1].key, buckets[k].key)
  }

  lemma {:induction false} AddIdAscends(buckets: seq<Bucket>, key: string, id: nat)
    requires KeysAscend(buckets)
    ensures KeysAscend(AddId(buckets, key, id)) && AddId(buckets, key, id) != []
    ensures buckets != [] && !Before(key, buckets[0].key) ==> AddId(buckets, key, id)[0].key == buckets[0].key
  {
    if buckets != [] && !Before(key, buckets[0].key) && buckets[0].key != key {
      AddIdAscends(buckets[1..], key, id);
      OneIsBefore(key, buckets[0].key);
    }
  }

  lemma {:induction false} BucketsAscend(b: Base, fold: Fold, k: nat)
    ensures KeysAscend(BucketsUpTo(b, fold, k))
  {
    if k > 0 {
      BucketsAscend(b, fold, k - 1);
      match BaseName(b, k - 1) {
        case Ok(name) => AddIdAscends(BucketsUpTo(b, fold, k - 1), FirstChars(fold(name), SHORT_QUERY_CHARS), k - 1);
        case Err(_) =>
      }
    }
  }

  /** The buckets stand in the order of their keys, unit by unit, and no key has two. */
  lemma BucketsAreOrdered(b: Base, fold: Fold, j: nat, k: nat)
    requires j < k < |BucketsOf(b, fold)|
    ensures Less(BucketsOf(b, fold)[j].key, BucketsOf(b, fold)[k].key)
  {
    BucketsAscend(b, fold, |b.records|);
    OrderedApart(BucketsOf(b, fold), j, k);
    BeforeIsLess(BucketsOf(b, fold)[j].key, BucketsOf(b, fold)[k].key);
  }

  lemma {:induction false} OrderedApart(buckets: seq<Bucket>, j: nat, k: nat)
    requires KeysAscend(buckets) && j < k < |buckets|
    ensures Before(buckets[j].key, buckets[k].key)
    decreases k
  {
    if j < k - 1 {
      OrderedApart(buckets, j, k - 1);
      BeforeTransitive(buckets[j].key, buckets[k - 1].key, buckets[k].key);
    }
  }

  // ----- Whom the buckets propose -----

  /** Two characters are enough to tell whether a short query begins a name. */
  lemma KeyDecides(folded: string, query: string)
    requires query != "" && CharCount(query) <= SHORT_QUERY_CHARS
    ensures query <= FirstChars(folded, SHORT_QUERY_CHARS) <==> query <= folded
    ensures query <= folded ==> FirstChars(folded, SHORT_QUERY_CHARS) != ""
  {
    if query <= folded { FirstCharsIsLongest(folded, SHORT_QUERY_CHARS, query); }
  }

  lemma {:induction false} AddIdProposes(buckets: seq<Bucket>, key: string, id: nat, query: string)
    ensures multiset(CandidatesOf(AddId(buckets, key, id), query)) ==
            multiset(CandidatesOf(buckets, query)) + if query <= key then multiset{id} else multiset{}
  {
    if buckets == [] || Before(key, buckets[0].key) {
      assert ([Bucket(key, [id])] + buckets)[1..] == buckets;
    } else if buckets[0].key == key {
      assert ([Bucket(key, buckets[0].ids + [id])] + buckets[1..])[1..] == buckets[1..];
    } else {
      AddIdProposes(buckets[1..], key, id, query);
      assert ([buckets[0]] + AddId(buckets[1..], key, id))[1..] == AddId(buckets[1..], key, id);
    }
  }

  lemma AddNameProposes(buckets: seq<Bucket>, folded: string, id: nat, query: string)
    requires query != "" && CharCount(query) <= SHORT_QUERY_CHARS
    ensures multiset(CandidatesOf(AddName(buckets, folded, id), query)) ==
            multiset(CandidatesOf(buckets, query)) + if query <= folded then multiset{id} else multiset{}
  {
    KeyDecides(folded, query);
    if FirstChars(folded, SHORT_QUERY_CHARS) != "" { AddIdProposes(buckets, FirstChars(folded, SHORT_QUERY_CHARS), id, query); }
  }

  /** The name that base record `i` was built with begins, folded, with the query. */
  predicate BuiltWith(b: Base, fold: Fold, query: string, i: nat) {
    BaseName(b, i).Ok? && query <= fold(BaseName(b, i).value)
  }

  ghost function Proposals(b: Base, fold: Fold, query: string, k: nat): multiset<nat> {
    multiset(CandidatesOf(BucketsUpTo(b, fold, k), query))
  }

  lemma ProposalsStep(b: Base, fold: Fold, query: string, k: nat)
    requires query != "" && CharCount(query) <= SHORT_QUERY_CHARS
    ensures Proposals(b, fold, query, k + 1) ==
            Proposals(b, fold, query, k) + if BuiltWith(b, fold, query, k) then multiset{k} else multiset{}
  {
    if BaseName(b, k).Ok? { AddNameProposes(BucketsUpTo(b, fold, k), fold(BaseName(b, k).value), k, query); }
  }

  ghost predicate GrowsBy(p: nat -> multiset<nat>, has: nat -> bool, k: nat) {
    p(k + 1) == p(k) + if has(k) then multiset{k} else multiset{}
  }

  lemma {:induction false} CountedOnce(p: nat -> multiset<nat>, has: nat -> bool, k: nat, i: nat)
    requires p(0) == multiset{} && forall j: nat :: GrowsBy(p, has, j)
    ensures p(k)[i] == if i < k && has(i) then 1 else 0
  {
    if k > 0 {
      CountedOnce(p, has, k - 1, i);
      assert GrowsBy(p, has, k - 1);
    }
  }

  /** A short query is proposed each base record once whose folded name began with it when the index was built. */
  lemma ProposedOnce(b: Base, fold: Fold, query: string, k: nat, i: nat)
    requires query != "" && CharCount(query) <= SHORT_QUERY_CHARS
    ensures multiset(CandidatesOf(BucketsUpTo(b, fold, k), query))[i] == if i < k && BuiltWith(b, fold, query, i) then 1 else 0
  {
    var p := (j: nat) => Proposals(b, fold, query, j);
    var has := (j: nat) => BuiltWith(b, fold, query, j);
    forall j: nat ensures GrowsBy(p, has, j) {
      ProposalsStep(b, fold, query, j);
    }
    CountedOnce(p, has, k, i);
  }

  // ----- The search of an index -----

  /** The first `limit` records that are not deleted, scored by kind alone. */
  function FirstLive(v: View, hi: nat, limit: nat): seq<Scored> {
    if hi == 0 then []
    else
      var before := FirstLive(v, hi - 1, limit);
      if |before| < limit && !LogicalIsDeleted(v, hi - 1)
      then before + [Scored(DirectoryBonus(LogicalIsDir(v, hi - 1)), [], hi - 1)] else before
  }

  /** Matches among the proposed base records, under their current names, then among the overlay's. */
  function ShortMatches(v: View, env: Env, folded: string): seq<Scored> {
    ListedMatches(v, env, folded, CandidatesOf(BucketsOf(v.base, env.fold), folded)) +
    CollectRange(BaseLen(v), LogicalLen(v), ListedMatcher(v, env, folded))
  }

  /** The search of one index, for queries of every length. */
  function SearchIndex(v: View, env: Env, query: string, limit: nat): seq<SearchResult> {
    var folded := env.fold(query);
    if limit == 0 then []
    else if folded == "" then Materialize(v, env, FirstLive(v, LogicalLen(v), limit), limit)
    else if CharCount(folded) <= SHORT_QUERY_CHARS then Materialize(v, env, ShortMatches(v, env, folded), limit)
    else SearchDirect(v, env, query, limit)
  }

  function Visible(v: View): nat -> bool { (i: nat) => !LogicalIsDeleted(v, i) }

  /** The empty query lists the first `limit` records that are not deleted, in index order. */
  lemma {:induction false} FirstLiveLists(v: View, hi: nat, limit: nat)
    ensures Indices(FirstLive(v, hi, limit)) == Truncate(Select(0, hi, Visible(v)), limit)
    ensures |FirstLive(v, hi, limit)| == |Indices(FirstLive(v, hi, limit))|
  {
    if hi > 0 {
      FirstLiveLists(v, hi - 1, limit);
      SelectSnoc(0, hi - 1, Visible(v));
      var before := FirstLive(v, hi - 1, limit);
      var one := Scored(DirectoryBonus(LogicalIsDir(v, hi - 1)), [], hi - 1);
      IndicesSnoc(before, Some(one));
    }
  }

  /** Record `i` is among the matches. */
  ghost predicate Found(ms: seq<Scored>, i: nat) { exists k :: 0 <= k < |ms| && ms[k].index == i }

  lemma FoundInConcat(a: seq<Scored>, b: seq<Scored>, i: nat)
    ensures Found(a + b, i) <==> Found(a, i) || Found(b, i)
  {
    if k :| 0 <= k < |a| && a[k].index == i { assert (a + b)[k] == a[k]; }
    if k :| 0 <= k < |b| && b[k].index == i { assert (a + b)[|a| + k] == b[k]; }
    if k :| 0 <= k < |a + b| && (a + b)[k].index == i && k >= |a| { assert b[k - |a|] == (a + b)[k]; }
  }

  /** What is found at a record carries its index. */
  ghost predicate FindsAt(find: nat -> Option<Scored>) { forall i: nat :: find(i).Some? ==> find(i).value.index == i }

  lemma FoundOne(find: nat -> Option<Scored>, at: nat, i: nat)
    requires FindsAt(find)
    ensures Found(OneIfSome(find(at)), i) <==> i == at && find(i).Some?
  {
    var one := OneIfSome(find(at));
    if one != [] { assert one[0].index == at; }
  }

  lemma {:induction false} FoundInList(find: nat -> Option<Scored>, ids: seq<nat>, i: nat)
    requires FindsAt(find)
    ensures Found(Collect(ids, find), i) <==> i in ids && find(i).Some?
  {
    if ids != [] {
      var init, last := ids[..|ids| - 1], ids[|ids| - 1];
      FoundInList(find, init, i);
      FoundInConcat(Collect(init, find), OneIfSome(find(last)), i);
      FoundOne(find, last, i);
      assert i in ids <==> i in init || i == last;
    }
  }

  lemma {:induction false} FoundInRange(find: nat -> Option<Scored>, lo: nat, hi: nat, i: nat)
    requires FindsAt(find)
    ensures Found(CollectRange(lo, hi, find), i) <==> lo <= i < hi && find(i).Some?
  {
    if lo < hi {
      FoundInRange(find, lo, hi - 1, i);
      FoundInConcat(CollectRange(lo, hi - 1, find), OneIfSome(find(hi - 1)), i);
      FoundOne(find, hi - 1, i);
    }
  }

  /**
   A short query finds exactly the matches of a full scan that are overlay records
   or base records whose name, when the index was last rebuilt, began with it.
   */
  lemma ShortFindsIff(v: View, env: Env, folded: string, i: nat)
    requires StructOk(v) && folded != "" && CharCount(folded) <= SHORT_QUERY_CHARS
    ensures Found(ShortMatches(v, env, folded), i) <==>
            Found(ScannedMatches(v, env, folded), i) && (i >= BaseLen(v) || BuiltWith(v.base, env.fold, folded, i))
  {
    var ids := CandidatesOf(BucketsOf(v.base, env.fold), folded);
    var find := ListedMatcher(v, env, folded);
    ProposedOnce(v.base, env.fold, folded, BaseLen(v), i);
    FoundInList(find, ids, i);
    FoundInRange(find, BaseLen(v), LogicalLen(v), i);
    FoundInConcat(Collect(ids, find), CollectRange(BaseLen(v), LogicalLen(v), find), i);
    ScanIsListed(v, env, folded);
    FoundInRange(find, 0, LogicalLen(v), i);
  }

  /** What a short query returns are the best scores of what it finds, when every selected path resolves. */
  lemma ShortSearchKeepsTop(v: View, env: Env, query: string, limit: nat)
    requires SortLaws(env) && limit > 0 && env.fold(query) != "" && CharCount(env.fold(query)) <= SHORT_QUERY_CHARS
    requires AllShow(v, Truncate(env.sortScored(ShortMatches(v, env, env.fold(query))), limit))
    ensures KeepsTop(ResultPoints(SearchIndex(v, env, query, limit)), Points(ShortMatches(v, env, env.fold(query))), limit)
  {
    MaterializeKeepsTop(v, env, ShortMatches(v, env, env.fold(query)), limit);
  }
}
