/**
 Resolving a path text to a record (path.rs, index.rs), and why printing and
 resolving are inverse.
 */
module PathLookup {
  import opened Basics
  import opened Records
  import opened Chains
  import opened Paths
  import opened Overlay
  import opened Refinement
  import opened Observations
  import opened Matching

  // ----- Normalizing a path text -----

  /** The white space of Unicode, by the number of UTF-8 units that it takes. */
  predicate IsSpace1(c: char) { c == ' ' || '\t' <= c <= '\r' }

  predicate IsSpace2(a: char, b: char) { a == '\U{C2}' && (b == '\U{85}' || b == '\U{A0}') }

  predicate IsSpace3(a: char, b: char, c: char) {
    || (a == '\U{E1}' && b == '\U{9A}' && c == '\U{80}')
    || (a == '\U{E2}' && b == '\U{80}' && ('\U{80}' <= c <= '\U{8A}' || '\U{A8}' <= c <= '\U{A9}' || c == '\U{AF}'))
    || (a == '\U{E2}' && b == '\U{81}' && c == '\U{9F}')
    || (a == '\U{E3}' && b == '\U{80}' && c == '\U{80}')
  }

  /** Units of the white space character that a text begins with, or zero. */
  function SpacePrefix(s: string): (k: nat)
    ensures k <= |s|
  {
    if |s| >= 1 && IsSpace1(s[0]) then 1
    else if |s| >= 2 && IsSpace2(s[0], s[1]) then 2
    else if |s| >= 3 && IsSpace3(s[0], s[1], s[2]) then 3
    else 0
  }

  /** Units of the white space character that a text ends in, or zero. */
  function SpaceSuffix(s: string): (k: nat)
    ensures k <= |s|
  {
    var n := |s|;
    if n >= 1 && IsSpace1(s[n - 1]) then 1
    else if n >= 2 && IsSpace2(s[n - 2], s[n - 1]) then 2
    else if n >= 3 && IsSpace3(s[n - 3], s[n - 2], s[n - 1]) then 3
    else 0
  }

  function ToBackslashes(s: string): (r: string)
    ensures |r| == |s|
  {
    if s == "" then "" else [if s[0] == '/' then '\\' else s[0]] + ToBackslashes(s[1..])
  }

  function TrimStart(s: string): string {
    if SpacePrefix(s) == 0 then s else TrimStart(s[SpacePrefix(s)..])
  }

  function TrimEnd(s: string): string {
    if SpaceSuffix(s) == 0 then s else TrimEnd(s[..|s| - SpaceSuffix(s)])
  }

  function TrimEndSeparators(s: string): string {
    if s != "" && s[|s| - 1] == '\\' then TrimEndSeparators(s[..|s| - 1]) else s
  }

  function NormalizeTrimmed(trimmed: string): string {
    if IsDriveRoot(trimmed) || IsDrivePrefix(trimmed) then UpperAscii(trimmed[..2]) + "\\"
    else
      var stripped := TrimEndSeparators(trimmed);
      if |stripped| >= 2 && stripped[1] == ':' then UpperAscii(stripped[..1]) + stripped[1..] else stripped
  }

  function Normalize(path: string): string { NormalizeTrimmed(TrimEnd(TrimStart(ToBackslashes(path)))) }

  function Emit(part: string): seq<string> { if part == "" then [] else [part] }

  /** The non-empty parts between separators; `current` is the part being read. */
  function PartsFrom(s: string, current: string): seq<string>
    decreases |s|
  {
    if s == "" then Emit(current)
    else if s[0] == '\\' then Emit(current) + PartsFrom(s[1..], "")
    else PartsFrom(s[1..], current + [s[0]])
  }

  function Parts(s: string): seq<string> { PartsFrom(s, "") }

  // ----- Walking down -----

  predicate NamesEqual(fold: Fold, left: string, right: string) {
    if IsAscii(left) && IsAscii(right) then UpperAscii(left) == UpperAscii(right)
    else fold(left) == fold(right)
  }

  predicate NameMatches(v: View, fold: Fold, i: nat, name: string) {
    LogicalName(v, i).Some? && NamesEqual(fold, LogicalName(v, i).value, name)
  }

  predicate RootMatches(v: View, fold: Fold, i: nat, name: string) {
    !LogicalIsDeleted(v, i) && LogicalParent(v, i).None? && NameMatches(v, fold, i, name)
  }

  function FirstIn(s: seq<nat>, keep: nat -> bool): (found: Option<nat>)
    ensures found.Some? ==> found.value in s && keep(found.value)
    ensures found.None? ==> forall i :: i in s ==> !keep(i)
  {
    if s == [] then None else if keep(s[0]) then Some(s[0]) else FirstIn(s[1..], keep)
  }

  function FirstBetween(lo: nat, hi: nat, keep: nat -> bool): (found: Option<nat>)
    ensures found.Some? ==> lo <= found.value < hi && keep(found.value)
    ensures found.None? ==> forall i :: lo <= i < hi ==> !keep(i)
    decreases hi - lo
  {
    if lo >= hi then None else if keep(lo) then Some(lo) else FirstBetween(lo + 1, hi, keep)
  }

  /** Volumes keep their root under record number 5; otherwise the first matching root is taken. */
  function FindRoot(v: View, fold: Fold, name: string): (root: Option<nat>)
    ensures root.Some? ==> RootMatches(v, fold, root.value, name)
  {
    var five := RefLookup(v, FileRef(0, ROOT_FRS));
    if five.Some? && RootMatches(v, fold, five.value, name) then five
    else FirstBetween(0, LogicalLen(v), RootMatcher(v, fold, name))
  }

  function RootMatcher(v: View, fold: Fold, name: string): nat -> bool { (i: nat) => RootMatches(v, fold, i, name) }

  function ChildMatcher(v: View, fold: Fold, name: string): nat -> bool {
    (i: nat) => !LogicalIsDeleted(v, i) && NameMatches(v, fold, i, name)
  }

  function FindChild(v: View, fold: Fold, parent: nat, name: string): Option<nat> {
    FirstIn(LogicalChildren(v, parent), ChildMatcher(v, fold, name))
  }

  /** The record that the parts lead to, one directory at a time. */
  function Walk(v: View, fold: Fold, parts: seq<string>): Option<nat> {
    if parts == [] then None
    else if |parts| == 1 then FindRoot(v, fold, parts[0])
    else match Walk(v, fold, parts[..|parts| - 1])
      case None => None
      case Some(current) => FindChild(v, fold, current, parts[|parts| - 1])
  }

  function Resolve(v: View, fold: Fold, path: string): Result<nat, EsError> {
    var normalized := Normalize(path);
    match Walk(v, fold, Parts(normalized))
    case None => Err(PathNotFound(normalized))
    case Some(i) => Ok(i)
  }

  /** The public lookup normalizes before it resolves, which normalizes again. */
  function PathToIdx(v: View, fold: Fold, path: string): Result<nat, EsError> {
    Resolve(v, fold, Normalize(path))
  }

  // ----- What a resolved record is -----

  /** The parts name `i` and its ancestors, root first, up to letter case. */
  ghost predicate Spells(v: View, fold: Fold, i: nat, parts: seq<string>)
    decreases |parts|
  {
    && parts != [] && i < LogicalLen(v) && Live(v, i)
    && NameMatches(v, fold, i, parts[|parts| - 1])
    && match LogicalParent(v, i)
       case None => |parts| == 1
       case Some(p) => |parts| > 1 && Spells(v, fold, p, parts[..|parts| - 1])
  }

  /** Whatever is resolved, at whatever path, is a live record spelled by the parts of the path. */
  lemma {:induction false} WalkFindsSpelled(v: View, fold: Fold, parts: seq<string>)
    requires StructOk(v) && Walk(v, fold, parts).Some?
    ensures Spells(v, fold, Walk(v, fold, parts).value, parts)
  {
    var i := Walk(v, fold, parts).value;
    if |parts| == 1 {
      LiveIsNotDeleted(v, i);
    } else {
      WalkFindsSpelled(v, fold, parts[..|parts| - 1]);
      var current := Walk(v, fold, parts[..|parts| - 1]).value;
      ChildrenAreParentInverse(v, current, i);
    }
  }

  /** A spelled record reaches a root, in exactly as many steps as there are parts before the last. */
  lemma {:induction false} SpelledReachesRoot(v: View, fold: Fold, i: nat, parts: seq<string>)
    requires StructOk(v) && Spells(v, fold, i, parts)
    ensures Chain(LogicalForest(v), i, |parts|).Some? && |Chain(LogicalForest(v), i, |parts|).value| == |parts|
    decreases |parts|
  {
    if LogicalParent(v, i).Some? {
      SpelledReachesRoot(v, fold, LogicalParent(v, i).value, parts[..|parts| - 1]);
    }
  }

  lemma ResolvedReachesRoot(v: View, fold: Fold, path: string)
    requires StructOk(v) && Resolve(v, fold, path).Ok?
    ensures var i := Resolve(v, fold, path).value;
            && i < LogicalLen(v) && Live(v, i) && ReachesRoot(LogicalForest(v), i)
            && Spells(v, fold, i, Parts(Normalize(path)))
  {
    var parts := Parts(Normalize(path));
    WalkFindsSpelled(v, fold, parts);
    SpelledReachesRoot(v, fold, Walk(v, fold, parts).value, parts);
  }

  // ----- Printed paths -----

  /** A name that a path can carry. */
  predicate PlainName(name: string) {
    name != "" && forall k :: 0 <= k < |name| ==> name[k] != '\\' && name[k] != '/'
  }

  predicate AllPlain(names: seq<string>) { forall k :: 0 <= k < |names| ==> PlainName(names[k]) }

  lemma {:induction false} PartsOfName(name: string, rest: string, current: string)
    requires forall k :: 0 <= k < |name| ==> name[k] != '\\'
    ensures PartsFrom(name + rest, current) == PartsFrom(rest, current + name)
    decreases |name|
  {
    if name == "" {
      assert name + rest == rest && current + name == current;
    } else {
      assert (name + rest)[1..] == name[1..] + rest;
      assert (current + [name[0]]) + name[1..] == current + name;
      PartsOfName(name[1..], rest, current + [name[0]]);
    }
  }

  /** Splitting undoes joining. */
  lemma {:induction false} PartsOfJoin(names: seq<string>)
    requires AllPlain(names)
    ensures Parts(JoinWith(names)) == names
  {
    if |names| == 1 {
      PartsOfName(names[0], "", "");
      assert names[0] + "" == names[0] && "" + names[0] == names[0];
    } else if names != [] {
      var rest := "\\" + JoinWith(names[1..]);
      PartsOfName(names[0], rest, "");
      assert JoinWith(names) == names[0] + rest;
      assert "" + names[0] == names[0];
      assert rest[1..] == JoinWith(names[1..]);
      PartsOfJoin(names[1..]);
    }
  }

  lemma {:induction false} AppendIsJoin(path: string, parts: seq<string>)
    requires AllPlain(parts) && parts != []
    ensures AppendParts(path, parts) == (if EndsWithSeparator(path) then path else path + "\\") + JoinWith(parts)
    decreases |parts|
  {
    var start := if EndsWithSeparator(path) then path else path + "\\";
    if |parts| > 1 {
      AppendIsJoin(start + parts[0], parts[1..]);
      var rest := JoinWith(parts[1..]);
      assert !EndsWithSeparator(start + parts[0]);
      assert (start + parts[0]) + "\\" + rest == start + (parts[0] + "\\" + rest);
    }
  }

  /** A path under a drive: the upper-case drive, one separator, and the joined names below it. */
  lemma PrintedIs(names: seq<string>)
    requires names != [] && IsDrivePrefix(names[0]) && AllPlain(names[1..])
    ensures JoinPathParts(names) == UpperAscii(names[0]) + "\\" + JoinWith(names[1..])
  {
    if |names| > 1 {
      AppendIsJoin(UpperAscii(names[0]) + "\\", names[1..]);
    } else {
      assert names[1..] == [];
    }
  }

  /** The parts of a printed path are the names again, with the drive in upper case. */
  lemma PartsOfPrinted(names: seq<string>)
    requires names != [] && IsDrivePrefix(names[0]) && AllPlain(names[1..])
    ensures Parts(JoinPathParts(names)) == [UpperAscii(names[0])] + names[1..]
  {
    var drive := UpperAscii(names[0]);
    var rest := "\\" + JoinWith(names[1..]);
    PrintedIs(names);
    assert JoinPathParts(names) == drive + rest;
    PartsOfName(drive, rest, "");
    assert "" + drive == drive && rest[1..] == JoinWith(names[1..]);
    PartsOfJoin(names[1..]);
  }

  function LastChar(s: string): char
    requires s != ""
  {
    s[|s| - 1]
  }

  lemma {:induction false} JoinEnds(names: seq<string>)
    requires AllPlain(names) && names != []
    ensures JoinWith(names) != "" && LastChar(JoinWith(names)) == LastChar(names[|names| - 1])
    ensures SpaceSuffix(JoinWith(names)) == SpaceSuffix(names[|names| - 1])
  {
    if |names| > 1 {
      JoinEnds(names[1..]);
      assert names[1..][|names| - 2] == names[|names| - 1];
      SpaceBehindSeparator(names[0] + "\\", JoinWith(names[1..]));
    }
  }

  /** No white space character reaches over a separator. */
  lemma SpaceBehindSeparator(start: string, s: string)
    requires start != "" && LastChar(start) == '\\'
    ensures SpaceSuffix(start + s) == SpaceSuffix(s)
  {
    var n := |start + s|;
    assert |s| < 3 ==> (start + s)[n - |s| - 1] == '\\';
    assert forall k :: 0 <= k < |s| ==> (start + s)[|start| + k] == s[k];
  }

  lemma {:induction false} JoinHasNoSlash(names: seq<string>)
    requires AllPlain(names)
    ensures forall k :: 0 <= k < |JoinWith(names)| ==> JoinWith(names)[k] != '/'
  {
    if |names| > 1 {
      JoinHasNoSlash(names[1..]);
    }
  }

  lemma {:induction false} NoSlashesToReplace(s: string)
    requires forall k :: 0 <= k < |s| ==> s[k] != '/'
    ensures ToBackslashes(s) == s
  {
    if s != "" {
      NoSlashesToReplace(s[1..]);
    }
  }

  predicate EndsInSpace(name: string) { SpaceSuffix(name) > 0 }

  lemma DriveAloneIsNormalized(drive: string)
    requires IsDrivePrefix(drive)
    ensures NormalizeTrimmed(UpperAscii(drive) + "\\") == UpperAscii(drive) + "\\"
  {
    var path := UpperAscii(drive) + "\\";
    assert path[..2] == UpperAscii(drive);
    assert UpperAscii(UpperAscii(drive)) == UpperAscii(drive);
  }

  lemma LongerIsNormalized(drive: string, rest: string)
    requires IsDrivePrefix(drive) && rest != "" && LastChar(rest) != '\\'
    ensures NormalizeTrimmed(UpperAscii(drive) + "\\" + rest) == UpperAscii(drive) + "\\" + rest
  {
    var path := UpperAscii(drive) + "\\" + rest;
    assert TrimEndSeparators(path) == path;
    assert UpperAscii(path[..1]) == path[..1];
    assert path[..1] + path[1..] == path;
  }

  lemma NothingToTrim(path: string)
    requires SpacePrefix(path) == 0 && SpaceSuffix(path) == 0
    requires forall k :: 0 <= k < |path| ==> path[k] != '/'
    ensures Normalize(path) == NormalizeTrimmed(path)
  {
    NoSlashesToReplace(path);
  }

  lemma LongerHasNothingToTrim(drive: string, rest: string)
    requires IsDrivePrefix(drive) && !EndsInSpace(rest)
    requires forall k :: 0 <= k < |rest| ==> rest[k] != '/'
    ensures Normalize(UpperAscii(drive) + "\\" + rest) == NormalizeTrimmed(UpperAscii(drive) + "\\" + rest)
  {
    var path := UpperAscii(drive) + "\\" + rest;
    SpaceBehindSeparator(UpperAscii(drive) + "\\", rest);
    NothingToTrim(path);
  }

  /** A printed path is already normalized, unless its last name ends in white space. */
  lemma PrintedIsNormalized(names: seq<string>)
    requires names != [] && IsDrivePrefix(names[0]) && AllPlain(names[1..])
    requires !EndsInSpace(names[|names| - 1])
    ensures Normalize(JoinPathParts(names)) == JoinPathParts(names)
  {
    PrintedIs(names);
    if |names| == 1 {
      assert UpperAscii(names[0]) + "\\" + JoinWith(names[1..]) == UpperAscii(names[0]) + "\\";
      NothingToTrim(UpperAscii(names[0]) + "\\");
      DriveAloneIsNormalized(names[0]);
    } else {
      assert names[1..][|names| - 2] == names[|names| - 1];
      JoinEnds(names[1..]);
      JoinHasNoSlash(names[1..]);
      LongerHasNothingToTrim(names[0], JoinWith(names[1..]));
      LongerIsNormalized(names[0], JoinWith(names[1..]));
    }
  }
}
