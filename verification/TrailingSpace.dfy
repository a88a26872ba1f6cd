/**
 The one way a printed path fails to resolve: the lookup trims its text, so a
 last name that ends in white space is looked up without it.
 */
module TrailingSpace {
  import opened Basics
  import opened Chains
  import opened Paths
  import opened Overlay
  import opened Refinement
  import opened Observations
  import opened Matching
  import opened PathLookup
  import opened PathRoundTrip

  // ----- Normalizing never adds a part -----

  lemma {:induction false} PartsGrowWithCurrent(s: string, a: string, b: string)
    requires a != "" ==> b != ""
    ensures |PartsFrom(s, a)| <= |PartsFrom(s, b)|
    decreases |s|
  {
    if s != "" && s[0] != '\\' {
      PartsGrowWithCurrent(s[1..], a + [s[0]], b + [s[0]]);
    }
  }

  lemma {:induction false} DropLastPart(s: string, current: string)
    requires s != ""
    ensures |PartsFrom(s[..|s| - 1], current)| <= |PartsFrom(s, current)|
    decreases |s|
  {
    var init := s[..|s| - 1];
    if |s| == 1 {
      assert s[1..] == "";
    } else {
      assert init[1..] == s[1..][..|s| - 2];
      DropLastPart(s[1..], if s[0] == '\\' then "" else current + [s[0]]);
    }
  }

  lemma DropFirstPart(s: string)
    requires s != ""
    ensures |Parts(s[1..])| <= |Parts(s)|
  {
    if s[0] != '\\' {
      PartsGrowWithCurrent(s[1..], "", "" + [s[0]]);
    }
  }

  lemma {:induction false} DropFirstUnits(s: string, k: nat)
    requires k <= |s|
    ensures |Parts(s[k..])| <= |Parts(s)|
  {
    if k > 0 {
      DropFirstUnits(s, k - 1);
      DropFirstPart(s[k - 1..]);
      assert s[k - 1..][1..] == s[k..];
    } else {
      assert s[0..] == s;
    }
  }

  lemma {:induction false} DropLastUnits(s: string, k: nat)
    requires k <= |s|
    ensures |Parts(s[..|s| - k])| <= |Parts(s)|
  {
    if k > 0 {
      DropLastUnits(s, k - 1);
      DropLastPart(s[..|s| - (k - 1)], "");
      assert s[..|s| - (k - 1)][..|s| - k] == s[..|s| - k];
    } else {
      assert s[..|s|] == s;
    }
  }

  lemma {:induction false} TrimStartDropsParts(s: string)
    ensures |Parts(TrimStart(s))| <= |Parts(s)|
  {
    var k := SpacePrefix(s);
    if k > 0 {
      DropFirstUnits(s, k);
      TrimStartDropsParts(s[k..]);
    }
  }

  lemma {:induction false} TrimEndDropsParts(s: string)
    ensures |Parts(TrimEnd(s))| <= |Parts(s)|
  {
    var k := SpaceSuffix(s);
    if k > 0 {
      DropLastUnits(s, k);
      TrimEndDropsParts(s[..|s| - k]);
    }
  }

  lemma {:induction false} TrimSeparatorsDropsParts(s: string)
    ensures |Parts(TrimEndSeparators(s))| <= |Parts(s)|
  {
    if s != "" && s[|s| - 1] == '\\' {
      DropLastPart(s, "");
      TrimSeparatorsDropsParts(s[..|s| - 1]);
    }
  }

  lemma {:induction false} SomePart(s: string, current: string)
    requires current != ""
    ensures |PartsFrom(s, current)| >= 1
    decreases |s|
  {
    if s != "" && s[0] != '\\' {
      SomePart(s[1..], current + [s[0]]);
    }
  }

  lemma UpperFirstKeepsParts(s: string)
    requires |s| >= 2
    ensures |Parts(UpperAscii(s[..1]) + s[1..])| == |Parts(s)|
  {
    var t := UpperAscii(s[..1]) + s[1..];
    assert t[1..] == s[1..];
    PartsGrowWithCurrent(s[1..], "" + [s[0]], "" + [t[0]]);
    PartsGrowWithCurrent(s[1..], "" + [t[0]], "" + [s[0]]);
  }

  lemma DriveIsOnePart(trimmed: string)
    requires IsDriveRoot(trimmed) || IsDrivePrefix(trimmed)
    ensures |Parts(UpperAscii(trimmed[..2]) + "\\")| == 1 <= |Parts(trimmed)|
  {
    var drive := UpperAscii(trimmed[..2]);
    PartsOfName(drive, "\\", "");
    assert "\\"[1..] == "" && "" + drive == drive;
    SomePart(trimmed[1..], "" + [trimmed[0]]);
  }

  lemma NormalizeDropsParts(s: string)
    requires forall k :: 0 <= k < |s| ==> s[k] != '/'
    ensures |Parts(Normalize(s))| <= |Parts(s)|
  {
    NoSlashesToReplace(s);
    TrimStartDropsParts(s);
    TrimEndDropsParts(TrimStart(s));
    TrimmedDropsParts(TrimEnd(TrimStart(s)));
  }

  lemma TrimmedDropsParts(trimmed: string)
    ensures |Parts(NormalizeTrimmed(trimmed))| <= |Parts(trimmed)|
  {
    if IsDriveRoot(trimmed) || IsDrivePrefix(trimmed) {
      DriveIsOnePart(trimmed);
    } else {
      TrimSeparatorsDropsParts(trimmed);
      if |TrimEndSeparators(trimmed)| >= 2 { UpperFirstKeepsParts(TrimEndSeparators(trimmed)); }
    }
  }

  // ----- What is left of a printed path -----

  lemma {:induction false} TrimEndOf(start: string, s: string)
    requires start != "" && LastChar(start) == '\\'
    ensures TrimEnd(start + s) == start + TrimEnd(s)
    decreases |s|
  {
    var k := SpaceSuffix(s);
    SpaceBehindSeparator(start, s);
    if k > 0 {
      assert (start + s)[..|start + s| - k] == start + s[..|s| - k];
      TrimEndOf(start, s[..|s| - k]);
    }
  }

  lemma {:induction false} TrimEndIsPrefix(s: string)
    ensures |TrimEnd(s)| <= |s| && TrimEnd(s) == s[..|TrimEnd(s)|] && !EndsInSpace(TrimEnd(s))
    ensures EndsInSpace(s) ==> TrimEnd(s) != s
  {
    if EndsInSpace(s) {
      TrimEndIsPrefix(s[..|s| - SpaceSuffix(s)]);
    }
  }

  /** Everything of a printed path but its last name: it ends with a separator. */
  function Folder(names: seq<string>): string
    requires names != []
  {
    if |names| == 1 then UpperAscii(names[0]) + "\\"
    else UpperAscii(names[0]) + "\\" + JoinWith(names[1..]) + "\\"
  }

  lemma {:induction false} JoinSnoc(names: seq<string>, name: string)
    requires names != []
    ensures JoinWith(names + [name]) == JoinWith(names) + "\\" + name
  {
    assert (names + [name])[1..] == names[1..] + [name];
    if |names| > 1 {
      JoinSnoc(names[1..], name);
    } else {
      assert names[1..] + [name] == [name];
    }
  }

  lemma PrintedInFolder(names: seq<string>, name: string)
    requires names != [] && IsDrivePrefix(names[0]) && AllPlain(names[1..]) && PlainName(name)
    ensures JoinPathParts(names + [name]) == Folder(names) + name
    ensures LastChar(Folder(names)) == '\\' && IsAsciiAlphabetic(Folder(names)[0])
    ensures forall k :: 0 <= k < |Folder(names)| ==> Folder(names)[k] != '/'
  {
    PrintedIs(names + [name]);
    assert (names + [name])[1..] == names[1..] + [name];
    JoinHasNoSlash(names[1..]);
    if |names| == 1 {
      assert names[1..] + [name] == [name];
    } else {
      JoinSnoc(names[1..], name);
    }
  }

  lemma {:induction false} EndingSeparatorIsNoPart(s: string, current: string)
    ensures PartsFrom(s + "\\", current) == PartsFrom(s, current)
    decreases |s|
  {
    if s == "" {
      assert s + "\\" == "\\" && "\\"[1..] == "";
    } else {
      assert (s + "\\")[1..] == s[1..] + "\\";
      EndingSeparatorIsNoPart(s[1..], if s[0] == '\\' then "" else current + [s[0]]);
    }
  }

  lemma PartsOfFolder(names: seq<string>)
    requires names != [] && IsDrivePrefix(names[0]) && AllPlain(names[1..])
    ensures |Parts(Folder(names))| == |names|
  {
    PartsOfPrinted(names);
    PrintedIs(names);
    if |names| > 1 {
      EndingSeparatorIsNoPart(JoinPathParts(names), "");
    } else {
      assert UpperAscii(names[0]) + "\\" + JoinWith(names[1..]) == Folder(names);
    }
  }

  lemma TrimmedPath(folder: string, name: string)
    requires folder != "" && LastChar(folder) == '\\' && IsAsciiAlphabetic(folder[0])
    requires forall k :: 0 <= k < |folder| ==> folder[k] != '/'
    requires forall k :: 0 <= k < |name| ==> name[k] != '/'
    ensures Normalize(folder + name) == NormalizeTrimmed(folder + TrimEnd(name))
  {
    var path := folder + name;
    NoSlashesToReplace(path);
    NothingInFront(path);
    TrimEndOf(folder, name);
    assert Normalize(path) == NormalizeTrimmed(TrimEnd(path));
  }

  lemma NothingInFront(path: string)
    requires path != "" && IsAsciiAlphabetic(path[0])
    ensures TrimStart(path) == path
  {}

  /** The parts that are looked up: at most the folder's, or a last one without its trailing space. */
  lemma LookedUpParts(names: seq<string>, name: string)
    requires names != [] && IsDrivePrefix(names[0]) && AllPlain(names[1..]) && PlainName(name)
    ensures var looked := Parts(Normalize(Normalize(JoinPathParts(names + [name]))));
            if TrimEnd(name) == "" then |looked| <= |names|
            else looked != [] && looked[|looked| - 1] == TrimEnd(name)
  {
    var rest := TrimEnd(name);
    TrimEndIsPrefix(name);
    PrintedInFolder(names, name);
    TrimmedPath(Folder(names), name);
    if rest == "" {
      assert Folder(names) + rest == Folder(names);
      PartsOfFolder(names);
      TrimmedDropsParts(Folder(names));
      NormalizedHasNoSlash(Folder(names));
      NormalizeDropsParts(NormalizeTrimmed(Folder(names)));
    } else {
      LookedUpShorter(names, name);
    }
  }

  lemma NormalizedHasNoSlash(s: string)
    requires forall k :: 0 <= k < |s| ==> s[k] != '/'
    ensures forall k :: 0 <= k < |NormalizeTrimmed(s)| ==> NormalizeTrimmed(s)[k] != '/'
  {
    SeparatorsTrimmed(s);
  }

  lemma {:induction false} SeparatorsTrimmed(s: string)
    ensures |TrimEndSeparators(s)| <= |s| && TrimEndSeparators(s) == s[..|TrimEndSeparators(s)|]
  {
    if s != "" && s[|s| - 1] == '\\' {
      SeparatorsTrimmed(s[..|s| - 1]);
    }
  }

  lemma NormalizedShorter(names: seq<string>, name: string)
    requires names != [] && IsDrivePrefix(names[0]) && AllPlain(names[1..]) && PlainName(name)
    requires PlainName(TrimEnd(name)) && !EndsInSpace(TrimEnd(name))
    ensures Normalize(JoinPathParts(names + [name])) == Normalize(JoinPathParts(names + [TrimEnd(name)]))
  {
    var rest := TrimEnd(name);
    PrintedInFolder(names, name);
    PrintedInFolder(names, rest);
    TrimmedPath(Folder(names), name);
    TrimmedPath(Folder(names), rest);
    assert TrimEnd(rest) == rest;
  }

  lemma LookedUpShorter(names: seq<string>, name: string)
    requires names != [] && IsDrivePrefix(names[0]) && AllPlain(names[1..]) && PlainName(name)
    requires TrimEnd(name) != ""
    ensures Parts(Normalize(Normalize(JoinPathParts(names + [name])))) == [UpperAscii(names[0])] + names[1..] + [TrimEnd(name)]
  {
    var shorter := names + [TrimEnd(name)];
    TrimEndIsPrefix(name);
    NormalizedShorter(names, name);
    assert shorter[1..] == names[1..] + [TrimEnd(name)];
    PrintedIsNormalized(shorter);
    PartsOfPrinted(shorter);
  }

  // ----- Exactly when the round trip fails -----

  /** A record resolves from as many parts as its chain is long, the last of which matches its name. */
  lemma ResolvedFrom(v: View, fold: Fold, i: nat, path: string, n: nat)
    requires StructOk(v) && Resolve(v, fold, path) == Ok(i)
    requires Chain(LogicalForest(v), i, n).Some? && |Chain(LogicalForest(v), i, n).value| == n
    ensures var parts := Parts(Normalize(path));
            |parts| == n && NameMatches(v, fold, i, parts[n - 1])
  {
    var parts := Parts(Normalize(path));
    ResolvedReachesRoot(v, fold, path);
    SpelledReachesRoot(v, fold, i, parts);
    ChainDeterministic(LogicalForest(v), i, |parts|, n);
  }

  lemma LosesRecord(v: View, fold: Fold, i: nat, names: seq<string>, path: string)
    requires StructOk(v) && PlainName(NameOf(v, i)) && EndsInSpace(NameOf(v, i))
    requires names != [] && IsDrivePrefix(names[0]) && AllPlain(names[1..])
    requires path == JoinPathParts(names + [NameOf(v, i)])
    requires Chain(LogicalForest(v), i, |names| + 1).Some?
    requires |Chain(LogicalForest(v), i, |names| + 1).value| == |names| + 1
    requires !NamesEqual(fold, NameOf(v, i), TrimEnd(NameOf(v, i)))
    ensures PathToIdx(v, fold, path) != Ok(i)
  {
    LookedUpParts(names, NameOf(v, i));
    if PathToIdx(v, fold, path) == Ok(i) {
      ResolvedFrom(v, fold, i, Normalize(path), |names| + 1);
    }
  }

  ghost predicate ChainMatches(v: View, i: nat, names: seq<string>) {
    var chain := Chain(LogicalForest(v), i, |names|);
    chain.Some? && |chain.value| == |names|
  }

  ghost function ChainClaim(v: View): (nat, seq<string>) -> bool {
    (i: nat, names: seq<string>) => ChainMatches(v, i, names)
  }

  /** There are as many names as records on the way up. */
  lemma NamesMatchChain(v: View, i: nat, fuel: nat)
    requires Inv(v) && LiveAt(v, i) && NamesUp(v, i, i, fuel).Ok?
    ensures ChainMatches(v, i, Reverse(NamesUp(v, i, i, fuel).value))
  {
    forall j: nat ensures RootCase(v, ChainClaim(v), j) {
      if LiveAt(v, j) && LogicalParent(v, j).None? { assert Chain(LogicalForest(v), j, 1) == Some([j]); }
    }
    forall j: nat, names: seq<string> ensures ChildCase(v, ChainClaim(v), j, names) {}
    AllRooted(v);
    DownTheNames(v, i, i, fuel, ChainClaim(v));
  }

  lemma SplitLast(v: View, fold: Fold, i: nat, names: seq<string>) returns (folder: seq<string>)
    requires LeadsTo(v, fold, i, names) && EndsInSpace(NameOf(v, i))
    ensures folder != [] && IsDrivePrefix(folder[0]) && AllPlain(folder[1..]) && PlainName(NameOf(v, i))
    ensures names == folder + [NameOf(v, i)]
  {
    assert |names| > 1;
    folder := names[..|names| - 1];
    assert names[1..][|names| - 2] == NameOf(v, i);
    assert forall k :: 0 <= k < |folder[1..]| ==> folder[1..][k] == names[1..][k];
  }

  lemma TrailingSpaceLosesRecord(v: View, fold: Fold, i: nat, fuel: nat, path: string)
    requires Resolvable(v, fold) && LiveAt(v, i) && EndsInSpace(NameOf(v, i))
    requires NamesUp(v, i, i, fuel).Ok? && PathOf(NamesUp(v, i, i, fuel).value) == path
    requires !NamesEqual(fold, NameOf(v, i), TrimEnd(NameOf(v, i)))
    ensures PathToIdx(v, fold, path) != Ok(i)
  {
    var names := Reverse(NamesUp(v, i, i, fuel).value);
    WalkRetraces(v, fold, i, fuel);
    NamesMatchChain(v, i, fuel);
    var folder := SplitLast(v, fold, i, names);
    LosesRecord(v, fold, i, folder, path);
  }

  /** Lower-casing neither makes nor removes white space at the end of a text. */
  ghost predicate FoldKeepsSpace(fold: Fold) { forall t: string :: KeepsSpace(fold, t) }

  ghost predicate KeepsSpace(fold: Fold, t: string) { EndsInSpace(fold(t)) <==> EndsInSpace(t) }

  lemma TrimmedNameDiffers(fold: Fold, name: string)
    requires FoldKeepsSpace(fold) && EndsInSpace(name)
    ensures !NamesEqual(fold, name, TrimEnd(name))
  {
    var rest := TrimEnd(name);
    TrimEndIsPrefix(name);
    assert KeepsSpace(fold, name) && KeepsSpace(fold, rest);
    assert |UpperAscii(name)| == |name| && |UpperAscii(rest)| == |rest|;
  }

  /** Lower-casing ASCII letters alone meets the law. */
  lemma AsciiFoldKeepsSpace()
    ensures FoldKeepsSpace(AsciiLower)
  {
    forall t: string ensures KeepsSpace(AsciiLower, t) {
      var n := |t|;
      assert forall k :: 0 <= k < n ==> AsciiLower(t)[k] == LowerChar(t[k]);
    }
  }

  lemma TrailingSpaceLosesPath(v: View, fold: Fold, i: nat)
    requires Resolvable(v, fold) && LiveAt(v, i) && LogicalPath(v, i).Ok? && FoldKeepsSpace(fold)
    requires EndsInSpace(NameOf(v, i))
    ensures PathToIdx(v, fold, LogicalPath(v, i).value) != Ok(i)
  {
    TrimmedNameDiffers(fold, NameOf(v, i));
    TrailingSpaceLosesRecord(v, fold, i, LogicalLen(v) + 1, LogicalPath(v, i).value);
  }

  /** The printed path of a live record resolves to that record if and only if its name does not end in white space. */
  lemma RoundTripIffNoTrailingSpace(v: View, fold: Fold, i: nat)
    requires Resolvable(v, fold) && LiveAt(v, i) && LogicalPath(v, i).Ok?
    requires FoldKeepsSpace(fold)
    ensures PathToIdx(v, fold, LogicalPath(v, i).value) == Ok(i) <==> !EndsInSpace(NameOf(v, i))
  {
    if EndsInSpace(NameOf(v, i)) {
      TrailingSpaceLosesPath(v, fold, i);
    } else {
      PathRoundTrips(v, fold, i);
    }
  }
}
