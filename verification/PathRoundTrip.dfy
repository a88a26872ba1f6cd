/** Printing a record's path and resolving it again leads back to the record. */
module PathRoundTrip {
  import opened Basics
  import opened Records
  import opened Paths
  import opened Overlay
  import opened Refinement
  import opened Observations
  import opened Matching
  import opened PathLookup

  function NameOf(v: View, i: nat): string {
    if LogicalName(v, i).Some? then LogicalName(v, i).value else ""
  }

  /** Roots carry drive names, everything else a name that a path can carry. */
  ghost predicate NamedWell(v: View, i: nat) {
    i < LogicalLen(v) && Live(v, i) ==>
      if LogicalParent(v, i).None? then IsDrivePrefix(NameOf(v, i)) else PlainName(NameOf(v, i))
  }

  predicate Siblings(v: View, a: nat, b: nat) {
    a < LogicalLen(v) && b < LogicalLen(v) && Live(v, a) && Live(v, b) && LogicalParent(v, a) == LogicalParent(v, b)
  }

  /** No two roots, and no two children of one parent, share a name up to letter case. */
  ghost predicate Distinguished(v: View, fold: Fold, a: nat, b: nat) {
    Siblings(v, a, b) && NamesEqual(fold, NameOf(v, a), NameOf(v, b)) ==> a == b
  }

  ghost predicate Resolvable(v: View, fold: Fold) {
    && Inv(v)
    && (forall i: nat :: NamedWell(v, i))
    && (forall a: nat, b: nat :: Distinguished(v, fold, a, b))
  }

  lemma UpperTwice(s: string)
    ensures UpperAscii(UpperAscii(s)) == UpperAscii(s)
  {}

  lemma RootIsFound(v: View, fold: Fold, i: nat)
    requires Resolvable(v, fold) && i < LogicalLen(v) && Live(v, i) && LogicalParent(v, i).None?
    ensures FindRoot(v, fold, UpperAscii(NameOf(v, i))) == Some(i)
  {
    var name := UpperAscii(NameOf(v, i));
    NamePresent(v, i);
    assert NamedWell(v, i);
    UpperTwice(NameOf(v, i));
    assert RootMatcher(v, fold, name)(i);
    var root := FindRoot(v, fold, name).value;
    if RefLookup(v, FileRef(0, ROOT_FRS)).Some? { LookupInRange(v, ROOT_FRS); }
    assert NamedWell(v, root) && Distinguished(v, fold, root, i);
  }

  lemma ChildIsFound(v: View, fold: Fold, i: nat)
    requires Resolvable(v, fold) && i < LogicalLen(v) && Live(v, i) && LogicalParent(v, i).Some?
    ensures FindChild(v, fold, LogicalParent(v, i).value, NameOf(v, i)) == Some(i)
  {
    var p := LogicalParent(v, i).value;
    NamePresent(v, i);
    LiveIsNotDeleted(v, i);
    ChildrenAreParentInverse(v, p, i);
    assert ChildMatcher(v, fold, NameOf(v, i))(i);
    var found := FindChild(v, fold, p, NameOf(v, i)).value;
    ChildrenAreParentInverse(v, p, found);
    assert Distinguished(v, fold, found, i);
  }

  /** What `PathOf` joins: the names root first. */
  ghost predicate LeadsTo(v: View, fold: Fold, i: nat, names: seq<string>) {
    && names != [] && IsDrivePrefix(names[0]) && AllPlain(names[1..])
    && names[|names| - 1] == NameOf(v, i)
    && Walk(v, fold, [UpperAscii(names[0])] + names[1..]) == Some(i)
  }

  lemma RootLeads(v: View, fold: Fold, i: nat)
    requires Resolvable(v, fold) && i < LogicalLen(v) && Live(v, i) && LogicalParent(v, i).None?
    ensures LeadsTo(v, fold, i, [NameOf(v, i)])
  {
    RootIsFound(v, fold, i);
    assert NamedWell(v, i);
    assert [NameOf(v, i)][1..] == [];
    assert [UpperAscii(NameOf(v, i))] + [] == [UpperAscii(NameOf(v, i))];
  }

  lemma WalkStep(v: View, fold: Fold, parts: seq<string>, name: string)
    requires parts != [] && Walk(v, fold, parts).Some?
    ensures Walk(v, fold, parts + [name]) == FindChild(v, fold, Walk(v, fold, parts).value, name)
  {
    assert (parts + [name])[..|parts|] == parts;
  }

  lemma LeadsToChild(v: View, fold: Fold, i: nat, names: seq<string>)
    requires Resolvable(v, fold) && i < LogicalLen(v) && Live(v, i) && LogicalParent(v, i).Some?
    requires LeadsTo(v, fold, LogicalParent(v, i).value, names)
    ensures LeadsTo(v, fold, i, names + [NameOf(v, i)])
  {
    var name := NameOf(v, i);
    var parts := [UpperAscii(names[0])] + names[1..];
    assert NamedWell(v, i);
    ChildIsFound(v, fold, i);
    assert (names + [name])[1..] == names[1..] + [name];
    assert [UpperAscii(names[0])] + (names + [name])[1..] == parts + [name];
    WalkStep(v, fold, parts, name);
  }

  // ----- Induction from the root down -----

  predicate LiveAt(v: View, i: nat) { i < LogicalLen(v) && Live(v, i) }

  ghost predicate RootCase(v: View, claim: (nat, seq<string>) -> bool, i: nat) {
    LiveAt(v, i) && LogicalParent(v, i).None? ==> claim(i, [NameOf(v, i)])
  }

  ghost predicate ChildCase(v: View, claim: (nat, seq<string>) -> bool, i: nat, names: seq<string>) {
    LiveAt(v, i) && LogicalParent(v, i).Some? && claim(LogicalParent(v, i).value, names) ==>
      claim(i, names + [NameOf(v, i)])
  }

  lemma ReverseCons(name: string, rest: seq<string>)
    ensures Reverse([name] + rest) == Reverse(rest) + [name]
    ensures Reverse([name]) == [name]
  {
    assert ([name] + rest)[1..] == rest;
    assert [name][1..] == [];
  }

  /** Live records have names and live parents. */
  ghost predicate Rooted(v: View, i: nat) {
    LiveAt(v, i) ==>
      && LogicalName(v, i).Some?
      && (LogicalParent(v, i).Some? ==> LiveAt(v, LogicalParent(v, i).value))
  }

  lemma AllRooted(v: View)
    requires Inv(v)
    ensures forall i: nat :: Rooted(v, i)
  {
    forall i: nat ensures Rooted(v, i) {
      if LiveAt(v, i) {
        NamePresent(v, i);
        ParentIsUp(v, i);
      }
    }
  }

  lemma NamesUpStep(v: View, index: nat, i: nat, fuel: nat)
    requires LogicalName(v, i).Some? && NamesUp(v, index, i, fuel).Ok?
    ensures fuel > 0
    ensures LogicalParent(v, i).None? ==> NamesUp(v, index, i, fuel).value == [NameOf(v, i)]
    ensures LogicalParent(v, i).Some? ==>
              var up := NamesUp(v, index, LogicalParent(v, i).value, fuel - 1);
              up.Ok? && NamesUp(v, index, i, fuel).value == [NameOf(v, i)] + up.value
  {}

  /** A claim about records and their names from the root holds if each child inherits it from its parent. */
  lemma {:induction false} DownTheNames(v: View, index: nat, i: nat, fuel: nat, claim: (nat, seq<string>) -> bool)
    requires (forall j: nat :: Rooted(v, j)) && LiveAt(v, i) && NamesUp(v, index, i, fuel).Ok?
    requires forall j: nat :: RootCase(v, claim, j)
    requires forall j: nat, names: seq<string> :: ChildCase(v, claim, j, names)
    ensures claim(i, Reverse(NamesUp(v, index, i, fuel).value))
    decreases fuel
  {
    assert Rooted(v, i);
    NamesUpStep(v, index, i, fuel);
    match LogicalParent(v, i) {
      case None =>
        assert RootCase(v, claim, i);
        ReverseCons(NameOf(v, i), []);
      case Some(p) =>
        var rest := NamesUp(v, index, p, fuel - 1).value;
        DownTheNames(v, index, p, fuel - 1, claim);
        assert ChildCase(v, claim, i, Reverse(rest));
        ReverseCons(NameOf(v, i), rest);
    }
  }

  ghost function Leads(v: View, fold: Fold): (nat, seq<string>) -> bool {
    (i: nat, names: seq<string>) => LeadsTo(v, fold, i, names)
  }

  /** Walking down the names that a walk up collected leads back. */
  lemma WalkRetraces(v: View, fold: Fold, i: nat, fuel: nat)
    requires Resolvable(v, fold) && LiveAt(v, i) && NamesUp(v, i, i, fuel).Ok?
    ensures LeadsTo(v, fold, i, Reverse(NamesUp(v, i, i, fuel).value))
  {
    forall j: nat ensures RootCase(v, Leads(v, fold), j) {
      if LiveAt(v, j) && LogicalParent(v, j).None? { RootLeads(v, fold, j); }
    }
    forall j: nat, names: seq<string> ensures ChildCase(v, Leads(v, fold), j, names) {
      if LiveAt(v, j) && LogicalParent(v, j).Some? && LeadsTo(v, fold, LogicalParent(v, j).value, names) {
        LeadsToChild(v, fold, j, names);
      }
    }
    AllRooted(v);
    DownTheNames(v, i, i, fuel, Leads(v, fold));
  }

  lemma PrintedResolves(v: View, fold: Fold, i: nat, names: seq<string>)
    requires LeadsTo(v, fold, i, names) && !EndsInSpace(NameOf(v, i))
    ensures PathToIdx(v, fold, JoinPathParts(names)) == Ok(i)
  {
    PrintedIsNormalized(names);
    PartsOfPrinted(names);
  }

  lemma RetracedResolves(v: View, fold: Fold, i: nat, fuel: nat, path: string)
    requires Resolvable(v, fold) && LiveAt(v, i) && !EndsInSpace(NameOf(v, i))
    requires NamesUp(v, i, i, fuel).Ok? && PathOf(NamesUp(v, i, i, fuel).value) == path
    ensures PathToIdx(v, fold, path) == Ok(i)
  {
    WalkRetraces(v, fold, i, fuel);
    PrintedResolves(v, fold, i, Reverse(NamesUp(v, i, i, fuel).value));
  }

  /** The printed path of a live record resolves to that record. */
  lemma PathRoundTrips(v: View, fold: Fold, i: nat)
    requires Resolvable(v, fold) && LiveAt(v, i)
    requires LogicalPath(v, i).Ok? && !EndsInSpace(NameOf(v, i))
    ensures PathToIdx(v, fold, LogicalPath(v, i).value) == Ok(i)
  {
    RetracedResolves(v, fold, i, LogicalLen(v) + 1, LogicalPath(v, i).value);
  }
}
