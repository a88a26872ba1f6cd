/**
 Which texts resolve to a record: any that spell its names from the root down, in
 any letter case, with either separator, and with white space around or separators
 behind.
 */
module PathSpellings {
  import opened Basics
  import opened Records
  import opened Paths
  import opened Overlay
  import opened Refinement
  import opened Matching
  import opened PathLookup
  import opened PathRoundTrip
  import opened TrailingSpace

  // ----- Either separator -----

  predicate IsSeparator(c: char) { c == '/' || c == '\\' }

  /** Two texts that differ at most in which separator stands at a place. */
  predicate SameButSlashes(p: string, q: string) {
    |p| == |q| && forall k :: 0 <= k < |p| ==> p[k] == q[k] || (IsSeparator(p[k]) && IsSeparator(q[k]))
  }

  lemma {:induction false} ReplacedAt(s: string, k: nat)
    requires k < |s|
    ensures ToBackslashes(s)[k] == if s[k] == '/' then '\\' else s[k]
  {
    if k > 0 {
      ReplacedAt(s[1..], k - 1);
    }
  }

  lemma SlashesAreReplaced(p: string, q: string)
    requires SameButSlashes(p, q)
    ensures ToBackslashes(p) == ToBackslashes(q)
  {
    forall k | 0 <= k < |p| ensures ToBackslashes(p)[k] == ToBackslashes(q)[k] {
      ReplacedAt(p, k);
      ReplacedAt(q, k);
    }
  }

  /** A lookup does not tell the separators apart. */
  lemma SlashesDoNotMatter(v: View, fold: Fold, p: string, q: string)
    requires SameButSlashes(p, q)
    ensures Walk(v, fold, Parts(Normalize(p))) == Walk(v, fold, Parts(Normalize(q)))
    ensures PathToIdx(v, fold, p) == PathToIdx(v, fold, q)
  {
    SlashesAreReplaced(p, q);
  }

  /** The printed path of a live record resolves to it with either separator at any place. */
  lemma SlashedPathResolves(v: View, fold: Fold, i: nat, p: string)
    requires Resolvable(v, fold) && LiveAt(v, i)
    requires LogicalPath(v, i).Ok? && !EndsInSpace(NameOf(v, i)) && SameButSlashes(p, LogicalPath(v, i).value)
    ensures PathToIdx(v, fold, p) == Ok(i)
  {
    SlashesDoNotMatter(v, fold, p, LogicalPath(v, i).value);
    PathRoundTrips(v, fold, i);
  }

  // ----- White space around and separators behind -----

  /** The code point that two or three UTF-8 units stand for. */
  function CodeOf2(a: char, b: char): int { (a as int - 0xC0) * 64 + (b as int - 0x80) }

  function CodeOf3(a: char, b: char, c: char): int { (a as int - 0xE0) * 4096 + (b as int - 0x80) * 64 + (c as int - 0x80) }

  /** The code points with the property White_Space in Unicode. */
  predicate IsWhiteSpace(code: int) {
    || 0x9 <= code <= 0xD || code == 0x20 || code == 0x85 || code == 0xA0 || code == 0x1680
    || 0x2000 <= code <= 0x200A || code == 0x2028 || code == 0x2029 || code == 0x202F || code == 0x205F || code == 0x3000
  }

  predicate Follows(c: char) { 0x80 <= c as int < 0xC0 }

  /** One white space character in UTF-8. */
  predicate IsSpaceCharacter(c: string) {
    || (|c| == 1 && (c[0] as int) < 0x80 && IsWhiteSpace(c[0] as int))
    || (|c| == 2 && 0xC2 <= c[0] as int < 0xE0 && Follows(c[1]) && IsWhiteSpace(CodeOf2(c[0], c[1])))
    || (|c| == 3 && 0xE0 <= c[0] as int < 0xF0 && Follows(c[1]) && Follows(c[2]) && CodeOf3(c[0], c[1], c[2]) >= 0x800 &&
        IsWhiteSpace(CodeOf3(c[0], c[1], c[2])))
  }

  lemma Space1Is(a: char)
    ensures IsSpace1(a) <==> IsSpaceCharacter([a])
  {}

  lemma Space2Is(a: char, b: char)
    ensures IsSpace2(a, b) <==> IsSpaceCharacter([a, b])
  {}

  lemma Space3Is(a: char, b: char, c: char)
    ensures IsSpace3(a, b, c) <==> IsSpaceCharacter([a, b, c])
  {}

  lemma OneInFront(s: string)
    requires |s| >= 1
    ensures SpacePrefix(s) == 1 <==> IsSpaceCharacter(s[..1])
  {
    Space1Is(s[0]);
    assert s[..1] == [s[0]];
  }

  lemma TwoInFront(s: string)
    requires |s| >= 2
    ensures SpacePrefix(s) == 2 <==> IsSpaceCharacter(s[..2])
  {
    Space2Is(s[0], s[1]);
    assert s[..2] == [s[0], s[1]];
  }

  lemma ThreeInFront(s: string)
    requires |s| >= 3
    ensures SpacePrefix(s) == 3 <==> IsSpaceCharacter(s[..3])
  {
    Space3Is(s[0], s[1], s[2]);
    assert s[..3] == [s[0], s[1], s[2]];
  }

  /** What is trimmed in front is a white space character of Unicode, and any is. */
  lemma TrimmedInFrontIff(s: string, k: nat)
    requires 0 < k <= |s|
    ensures SpacePrefix(s) == k <==> IsSpaceCharacter(s[..k])
  {
    match k {
      case 1 => OneInFront(s);
      case 2 => TwoInFront(s);
      case 3 => ThreeInFront(s);
      case _ => assert |s[..k]| == k;
    }
  }

  lemma OneBehind(s: string)
    requires |s| >= 1
    ensures SpaceSuffix(s) == 1 <==> IsSpaceCharacter(s[|s| - 1..])
  {
    Space1Is(s[|s| - 1]);
    assert s[|s| - 1..] == [s[|s| - 1]];
  }

  lemma TwoBehind(s: string)
    requires |s| >= 2
    ensures SpaceSuffix(s) == 2 <==> IsSpaceCharacter(s[|s| - 2..])
  {
    Space2Is(s[|s| - 2], s[|s| - 1]);
    assert s[|s| - 2..] == [s[|s| - 2], s[|s| - 1]];
  }

  lemma ThreeBehind(s: string)
    requires |s| >= 3
    ensures SpaceSuffix(s) == 3 <==> IsSpaceCharacter(s[|s| - 3..])
  {
    Space3Is(s[|s| - 3], s[|s| - 2], s[|s| - 1]);
    assert s[|s| - 3..] == [s[|s| - 3], s[|s| - 2], s[|s| - 1]];
  }

  /** So is what is trimmed behind. */
  lemma TrimmedBehindIff(s: string, k: nat)
    requires 0 < k <= |s|
    ensures SpaceSuffix(s) == k <==> IsSpaceCharacter(s[|s| - k..])
  {
    match k {
      case 1 => OneBehind(s);
      case 2 => TwoBehind(s);
      case 3 => ThreeBehind(s);
      case _ => assert |s[|s| - k..]| == k;
    }
  }

  /** A text of white space characters only. */
  predicate AllSpace(s: string)
    decreases |s|
  {
    s == "" || (SpacePrefix(s) > 0 && AllSpace(s[SpacePrefix(s)..]))
  }

  predicate AllSeparators(s: string) { forall k :: 0 <= k < |s| ==> IsSeparator(s[k]) }

  lemma PrefixStays(s: string, rest: string)
    requires SpacePrefix(s) > 0
    ensures SpacePrefix(s + rest) == SpacePrefix(s)
  {
    var t := s + rest;
    assert forall k :: 0 <= k < |s| ==> t[k] == s[k];
  }

  lemma SuffixOfOne(s: string, c: string)
    requires c != "" && SpacePrefix(c) == |c|
    ensures SpaceSuffix(s + c) == |c|
  {
    var t := s + c;
    assert forall k :: 0 <= k < |c| ==> t[|s| + k] == c[k];
  }

  lemma {:induction false} SpaceInFront(lead: string, s: string)
    requires AllSpace(lead)
    ensures TrimStart(lead + s) == TrimStart(s)
    decreases |lead|
  {
    if lead == "" {
      assert lead + s == s;
    } else {
      var k := SpacePrefix(lead);
      PrefixStays(lead, s);
      assert (lead + s)[k..] == lead[k..] + s;
      SpaceInFront(lead[k..], s);
    }
  }

  lemma {:induction false} SpaceBehind(s: string, tail: string)
    requires AllSpace(tail)
    ensures TrimEnd(s + tail) == TrimEnd(s)
    decreases |tail|
  {
    if tail == "" {
      assert s + tail == s;
    } else {
      var k := SpacePrefix(tail);
      var c, rest := tail[..k], tail[k..];
      assert SpacePrefix(c) == k by { assert forall j :: 0 <= j < k ==> c[j] == tail[j]; }
      assert s + tail == (s + c) + rest;
      SpaceBehind(s + c, rest);
      SuffixOfOne(s, c);
      assert (s + c)[..|s|] == s;
    }
  }

  lemma {:induction false} SpaceHasNoSlash(s: string)
    requires AllSpace(s)
    ensures forall k :: 0 <= k < |s| ==> s[k] != '/'
    decreases |s|
  {
    if s != "" {
      SpaceHasNoSlash(s[SpacePrefix(s)..]);
    }
  }

  lemma {:induction false} SeparatorsBehind(s: string, more: string)
    requires forall k :: 0 <= k < |more| ==> more[k] == '\\'
    ensures TrimEndSeparators(s + more) == TrimEndSeparators(s)
    decreases |more|
  {
    if more == "" {
      assert s + more == s;
    } else {
      assert (s + more)[..|s + more| - 1] == s + more[..|more| - 1];
      SeparatorsBehind(s, more[..|more| - 1]);
    }
  }

  /** A printed path, and what remains of it when separators behind it are cut off. */
  lemma PrintedThenSeparators(names: seq<string>, more: string)
    requires names != [] && IsDrivePrefix(names[0]) && AllPlain(names[1..]) && !EndsInSpace(names[|names| - 1])
    requires forall k :: 0 <= k < |more| ==> more[k] == '\\'
    ensures Normalize(NormalizeTrimmed(JoinPathParts(names) + more)) == JoinPathParts(names)
  {
    var path := JoinPathParts(names);
    PrintedIs(names);
    PrintedIsNormalized(names);
    if |names| == 1 {
      RootThenSeparators(names, more);
    } else {
      var rest := JoinWith(names[1..]);
      assert names[1..][|names| - 2] == names[|names| - 1];
      JoinEnds(names[1..]);
      SeparatorsBehind(path, more);
      LongerIsNormalized(names[0], rest);
      assert TrimEndSeparators(path) == path;
      assert NormalizeTrimmed(path + more) == path;
    }
  }

  lemma RootThenSeparators(names: seq<string>, more: string)
    requires |names| == 1 && IsDrivePrefix(names[0]) && JoinPathParts(names) == UpperAscii(names[0]) + "\\" + JoinWith(names[1..])
    requires forall k :: 0 <= k < |more| ==> more[k] == '\\'
    ensures Normalize(NormalizeTrimmed(JoinPathParts(names) + more)) == JoinPathParts(names)
  {
    var drive := UpperAscii(names[0]);
    var path := JoinPathParts(names);
    assert names[1..] == [] && path == drive + "\\";
    UpperTwice(names[0]);
    NothingToTrim(path);
    DriveAloneIsNormalized(names[0]);
    if more == "" {
      assert path + more == path;
    } else {
      SeparatorsBehind(drive, "\\" + more);
      assert path + more == drive + ("\\" + more);
      assert TrimEndSeparators(drive) == drive;
      assert UpperAscii(drive[..1]) + drive[1..] == drive;
      NothingToTrim(drive);
      assert drive[..2] == drive;
    }
  }

  lemma BothEndsAreTrimmed(lead: string, inner: string, tail: string)
    requires AllSpace(lead) && AllSpace(tail) && inner != "" && IsAsciiAlphabetic(inner[0]) && !EndsInSpace(inner)
    ensures TrimEnd(TrimStart(lead + (inner + tail))) == inner
  {
    SpaceInFront(lead, inner + tail);
    NothingInFront(inner + tail);
    SpaceBehind(inner, tail);
  }

  /** White space around a text that begins with a letter and does not end in white space is trimmed. */
  lemma AroundIsTrimmed(lead: string, inner: string, tail: string)
    requires AllSpace(lead) && AllSpace(tail) && inner != "" && IsAsciiAlphabetic(inner[0]) && !EndsInSpace(inner)
    requires forall k :: 0 <= k < |inner| ==> inner[k] != '/'
    ensures Normalize(lead + (inner + tail)) == NormalizeTrimmed(inner)
  {
    NoSlashInside(lead, inner, tail);
    BothEndsAreTrimmed(lead, inner, tail);
    NormalizeTrims(lead + (inner + tail));
  }

  lemma NormalizeTrims(p: string)
    ensures Normalize(p) == NormalizeTrimmed(TrimEnd(TrimStart(ToBackslashes(p))))
  {}

  lemma NoSlashInside(lead: string, inner: string, tail: string)
    requires AllSpace(lead) && AllSpace(tail) && forall k :: 0 <= k < |inner| ==> inner[k] != '/'
    ensures ToBackslashes(lead + (inner + tail)) == lead + (inner + tail)
  {
    SpaceHasNoSlash(lead);
    SpaceHasNoSlash(tail);
    NoSlashesToReplace(lead + (inner + tail));
  }

  lemma PrintedThenMore(names: seq<string>, more: string)
    requires names != [] && IsDrivePrefix(names[0]) && AllPlain(names[1..]) && !EndsInSpace(names[|names| - 1])
    requires forall k :: 0 <= k < |more| ==> more[k] == '\\'
    ensures var inner := JoinPathParts(names) + more;
            && inner != "" && IsAsciiAlphabetic(inner[0]) && !EndsInSpace(inner)
            && forall k :: 0 <= k < |inner| ==> inner[k] != '/'
  {
    var path := JoinPathParts(names);
    PrintedIs(names);
    JoinHasNoSlash(names[1..]);
    PrintedEnds(names);
    if more == "" { assert path + more == path; } else { assert LastChar(path + more) == '\\'; }
  }

  lemma PrintedEnds(names: seq<string>)
    requires names != [] && IsDrivePrefix(names[0]) && AllPlain(names[1..]) && !EndsInSpace(names[|names| - 1])
    ensures !EndsInSpace(JoinPathParts(names))
  {
    PrintedIs(names);
    var rest := JoinWith(names[1..]);
    if |names| > 1 {
      assert names[1..][|names| - 2] == names[|names| - 1];
      JoinEnds(names[1..]);
    }
    SpaceBehindSeparator(UpperAscii(names[0]) + "\\", rest);
  }

  /** The text is white space, the path with any separators, more separators, and white space. */
  ghost predicate Pads(p: string, path: string) {
    exists lead, body, more, tail ::
      && p == lead + body + more + tail && AllSpace(lead) && AllSpace(tail)
      && AllSeparators(more) && SameButSlashes(body, path)
  }

  /** Such a text is looked up as the path. */
  lemma PaddedIsPrinted(names: seq<string>, p: string)
    requires names != [] && IsDrivePrefix(names[0]) && AllPlain(names[1..]) && !EndsInSpace(names[|names| - 1])
    requires Pads(p, JoinPathParts(names))
    ensures Normalize(Normalize(p)) == JoinPathParts(names)
  {
    var path := JoinPathParts(names);
    var lead, body, more, tail :|
      && p == lead + body + more + tail && AllSpace(lead) && AllSpace(tail)
      && AllSeparators(more) && SameButSlashes(body, path);
    var back := seq(|more|, k requires 0 <= k < |more| => '\\');
    SlashesAnywhere(lead, body, path, more, back, tail);
    SlashesAreReplaced(p, lead + (path + back + tail));
    PrintedThenMore(names, back);
    AroundIsTrimmed(lead, path + back, tail);
    PrintedThenSeparators(names, back);
  }

  lemma SlashesAnywhere(lead: string, body: string, path: string, more: string, back: string, tail: string)
    requires SameButSlashes(body, path) && SameButSlashes(more, back)
    ensures SameButSlashes(lead + body + more + tail, lead + (path + back + tail))
  {
    var p, q := lead + body + more + tail, lead + (path + back + tail);
    assert lead + (path + back + tail) == lead + path + back + tail;
    forall k | 0 <= k < |p| ensures p[k] == q[k] || (IsSeparator(p[k]) && IsSeparator(q[k])) {
      if |lead| <= k < |lead| + |body| {
        assert p[k] == body[k - |lead|] && q[k] == path[k - |lead|];
      } else if |lead| + |body| <= k < |lead| + |body| + |more| {
        assert p[k] == more[k - |lead| - |body|] && q[k] == back[k - |lead| - |body|];
      }
    }
  }

  /**
   White space around the printed path of a live record, more separators behind it
   and either separator anywhere: the text resolves to the record all the same.
   */
  lemma PaddedPathResolves(v: View, fold: Fold, i: nat, p: string)
    requires Resolvable(v, fold) && LiveAt(v, i)
    requires LogicalPath(v, i).Ok? && !EndsInSpace(NameOf(v, i)) && Pads(p, LogicalPath(v, i).value)
    ensures PathToIdx(v, fold, p) == Ok(i)
  {
    PaddedResolves(v, fold, i, LogicalLen(v) + 1, LogicalPath(v, i).value, p);
  }

  lemma PaddedResolves(v: View, fold: Fold, i: nat, fuel: nat, path: string, p: string)
    requires Resolvable(v, fold) && LiveAt(v, i) && !EndsInSpace(NameOf(v, i))
    requires NamesUp(v, i, i, fuel).Ok? && PathOf(NamesUp(v, i, i, fuel).value) == path && Pads(p, path)
    ensures PathToIdx(v, fold, p) == Ok(i)
  {
    var names := Reverse(NamesUp(v, i, i, fuel).value);
    WalkRetraces(v, fold, i, fuel);
    PaddedNamesResolve(v, fold, i, names, p);
  }

  lemma PaddedNamesResolve(v: View, fold: Fold, i: nat, names: seq<string>, p: string)
    requires LeadsTo(v, fold, i, names) && !EndsInSpace(NameOf(v, i)) && Pads(p, JoinPathParts(names))
    ensures PathToIdx(v, fold, p) == Ok(i)
  {
    PaddedIsPrinted(names, p);
    PartsOfPrinted(names);
  }

  // ----- Any spelling -----

  /** Names are compared as their folded forms. */
  lemma NamesEqualIffFoldedAlike(fold: Fold, left: string, right: string)
    requires FoldLaws(fold)
    ensures NamesEqual(fold, left, right) <==> fold(left) == fold(right)
  {
    assert FoldsLikeAscii(fold, left) && FoldsLikeAscii(fold, right);
    if IsAscii(left) && IsAscii(right) { LettersPair(left, right); }
  }

  lemma LetterPair(a: char, b: char)
    ensures UpperChar(a) == UpperChar(b) <==> LowerChar(a) == LowerChar(b)
  {}

  lemma LettersPair(a: string, b: string)
    ensures UpperAscii(a) == UpperAscii(b) <==> AsciiLower(a) == AsciiLower(b)
  {
    var n := |a|;
    if n == |b| {
      if UpperAscii(a) == UpperAscii(b) {
        forall k | 0 <= k < n ensures AsciiLower(a)[k] == AsciiLower(b)[k] {
          assert UpperAscii(a)[k] == UpperAscii(b)[k];
          LetterPair(a[k], b[k]);
        }
      }
      if AsciiLower(a) == AsciiLower(b) {
        forall k | 0 <= k < n ensures UpperAscii(a)[k] == UpperAscii(b)[k] {
          assert AsciiLower(a)[k] == AsciiLower(b)[k];
          LetterPair(a[k], b[k]);
        }
      }
    }
  }

  lemma NamesEqualTransitive(fold: Fold, a: string, b: string, c: string)
    requires FoldLaws(fold) && NamesEqual(fold, a, b) && NamesEqual(fold, c, b)
    ensures NamesEqual(fold, a, c)
  {
    NamesEqualIffFoldedAlike(fold, a, b);
    NamesEqualIffFoldedAlike(fold, c, b);
    NamesEqualIffFoldedAlike(fold, a, c);
  }

  lemma SpelledRootIsFound(v: View, fold: Fold, i: nat, name: string)
    requires Resolvable(v, fold) && FoldLaws(fold) && LiveAt(v, i)
    requires LogicalParent(v, i).None? && NameMatches(v, fold, i, name)
    ensures FindRoot(v, fold, name) == Some(i)
  {
    assert RootMatcher(v, fold, name)(i);
    var root := FindRoot(v, fold, name).value;
    if RefLookup(v, FileRef(0, ROOT_FRS)).Some? { LookupInRange(v, ROOT_FRS); }
    NamesEqualTransitive(fold, NameOf(v, root), name, NameOf(v, i));
    assert Distinguished(v, fold, root, i);
  }

  lemma SpelledChildIsFound(v: View, fold: Fold, i: nat, name: string)
    requires Resolvable(v, fold) && FoldLaws(fold) && LiveAt(v, i)
    requires LogicalParent(v, i).Some? && NameMatches(v, fold, i, name)
    ensures FindChild(v, fold, LogicalParent(v, i).value, name) == Some(i)
  {
    var p := LogicalParent(v, i).value;
    LiveIsNotDeleted(v, i);
    ChildrenAreParentInverse(v, p, i);
    assert ChildMatcher(v, fold, name)(i);
    var found := FindChild(v, fold, p, name).value;
    ChildrenAreParentInverse(v, p, found);
    NamesEqualTransitive(fold, NameOf(v, found), name, NameOf(v, i));
    assert Distinguished(v, fold, found, i);
  }

  /**
   Where siblings have different names, a lookup finds a record if and only if the
   parts spell its names from the root down, letter case aside.
   */
  lemma {:induction false} WalkFindsIffSpelled(v: View, fold: Fold, i: nat, parts: seq<string>)
    requires Resolvable(v, fold) && FoldLaws(fold)
    ensures Walk(v, fold, parts) == Some(i) <==> Spells(v, fold, i, parts)
    decreases |parts|
  {
    if Walk(v, fold, parts) == Some(i) { WalkFindsSpelled(v, fold, parts); }
    if Spells(v, fold, i, parts) {
      var last := parts[|parts| - 1];
      match LogicalParent(v, i) {
        case None => SpelledRootIsFound(v, fold, i, last);
        case Some(p) =>
          WalkFindsIffSpelled(v, fold, p, parts[..|parts| - 1]);
          SpelledChildIsFound(v, fold, i, last);
      }
    }
  }
}
