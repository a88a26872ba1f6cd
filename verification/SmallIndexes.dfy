/** Indexes of one directory and at most one file, and the inputs on which the program fails its promises. */
module SmallIndexes {
  import opened Basics
  import opened Records
  import opened Overlay
  import opened VolumeTree
  import opened Refinement
  import opened BatchOrder
  import opened Builder
  import opened Matching
  import opened PathLookup
  import opened PathRoundTrip
  import opened TrailingSpace
  import opened Search
  import opened ShortQueries

  const ROOT := Addition(FileRef(0, ROOT_FRS), PARENT_NONE, "C:", 1, 0)

  function FileRow(name: string): Addition { Addition(FileRef(0, 6), 0, name, 0, 0) }

  function FileUnderRoot(number: nat): UsnEvent {
    UsnEvent(Create, FileRef(0, number), Some(FileRef(0, ROOT_FRS)), Some("a"), Some(0))
  }

  lemma EmptyTree()
    ensures Inv(BuiltView([])) && Abs(BuiltView([])) == map[]
  {
    BuiltViewOk([]);
    BuiltTree([]);
  }

  lemma RootTree()
    ensures Inv(BuiltView([ROOT])) && LogicalLen(BuiltView([ROOT])) == 1
    ensures Abs(BuiltView([ROOT])) == map[ROOT_FRS := Node("C:", None, true)]
  {
    BuiltViewOk([ROOT]);
    BuiltTree([ROOT]);
    assert AddedTree([ROOT], 0) == map[];
  }

  lemma FileTree(name: string)
    ensures Inv(BuiltView([ROOT, FileRow(name)])) && LogicalLen(BuiltView([ROOT, FileRow(name)])) == 2
    ensures Abs(BuiltView([ROOT, FileRow(name)])) ==
            map[ROOT_FRS := Node("C:", None, true), 6 := Node(name, Some(ROOT_FRS), false)]
  {
    var adds := [ROOT, FileRow(name)];
    BuiltViewOk(adds);
    BuiltTree(adds);
    assert AddedTree(adds, 0) == map[];
    assert AddedTree(adds, 1) == map[ROOT_FRS := Node("C:", None, true)];
  }

  // ----- A create of a live number -----

  /** A record number that is deleted and used again within one poll reaches the index as a create alone. */
  lemma ReusedNumberBreaksInv()
    ensures Inv(BuiltView([ROOT, FileRow("old")]))
    ensures !Inv(ApplyEvents(BuiltView([ROOT, FileRow("old")]), [FileUnderRoot(6)]))
  {
    FileTree("old");
    assert !Acceptable(Abs(BuiltView([ROOT, FileRow("old")])), [FileUnderRoot(6)][0]);
    ReplayBreaksInv(BuiltView([ROOT, FileRow("old")]), [FileUnderRoot(6)]);
  }

  // ----- A move before its parent -----

  /** A new directory, and the move of the file into it. */
  const NEW_DIRECTORY := UsnEvent(Create, FileRef(0, 7), Some(FileRef(0, ROOT_FRS)), Some("d"), Some(1))
  const INTO_DIRECTORY := UsnEvent(Rename, FileRef(0, 6), Some(FileRef(0, 7)), Some("a"), None)

  lemma TwoEvents(t: Tree, a: UsnEvent, b: UsnEvent)
    ensures TreeApplyAll(t, [a, b]) == TreeApply(TreeApply(t, a), b)
    ensures WellFormed(t, a) && WellFormed(TreeApply(t, a), b) ==> WellFormedAll(t, [a, b])
  {
    assert [a, b][..1] == [a] && [a][..0] == [];
    assert TreeApplyAll(t, []) == t && TreeApplyAll(t, [a]) == TreeApply(t, a);
    assert WellFormedAll(t, []) && (WellFormed(t, a) ==> WellFormedAll(t, [a]));
  }

  lemma MoveOrders(t: Tree)
    requires t == map[ROOT_FRS := Node("C:", None, true), 6 := Node("a", Some(ROOT_FRS), false)]
    ensures WellFormedAll(t, [NEW_DIRECTORY, INTO_DIRECTORY]) && WellFormedAll(t, [INTO_DIRECTORY, NEW_DIRECTORY])
    ensures NodeIn(TreeApplyAll(t, [NEW_DIRECTORY, INTO_DIRECTORY]), 6) == Some(Node("a", Some(7), false))
    ensures NodeIn(TreeApplyAll(t, [INTO_DIRECTORY, NEW_DIRECTORY]), 6) == Some(Node("a", Some(ROOT_FRS), false))
  {
    TwoEvents(t, NEW_DIRECTORY, INTO_DIRECTORY);
    TwoEvents(t, INTO_DIRECTORY, NEW_DIRECTORY);
  }

  /** If the move comes first, the file stays where it was. */
  lemma MoveBeforeItsParentIsLost()
    ensures var v := BuiltView([ROOT, FileRow("a")]);
            var right, wrong := ApplyEvents(v, [NEW_DIRECTORY, INTO_DIRECTORY]), ApplyEvents(v, [INTO_DIRECTORY, NEW_DIRECTORY]);
            && Inv(right) && NodeIn(Abs(right), 6) == Some(Node("a", Some(7), false))
            && Inv(wrong) && NodeIn(Abs(wrong), 6) == Some(Node("a", Some(ROOT_FRS), false))
  {
    var v := BuiltView([ROOT, FileRow("a")]);
    FileTree("a");
    MoveOrders(Abs(v));
    EventsRefine(v, [NEW_DIRECTORY, INTO_DIRECTORY]);
    EventsRefine(v, [INTO_DIRECTORY, NEW_DIRECTORY]);
  }

  // ----- A name that ends in white space -----

  lemma FileReads(name: string)
    ensures var v := BuiltView([ROOT, FileRow(name)]);
            && Inv(v) && LogicalLen(v) == 2 && Live(v, 0) && Live(v, 1)
            && LogicalParent(v, 0) == None && LogicalParent(v, 1) == Some(0)
            && LogicalName(v, 0) == Some("C:") && LogicalName(v, 1) == Some(name)
  {
    var adds := [ROOT, FileRow(name)];
    BuiltViewOk(adds);
    BuiltNames(adds, 0);
    BuiltNames(adds, 1);
    BuiltRecordAt(adds, 0);
    BuiltRecordAt(adds, 1);
  }

  lemma FileIsResolvable(name: string)
    requires PlainName(name)
    ensures Resolvable(BuiltView([ROOT, FileRow(name)]), AsciiLower)
  {
    var v := BuiltView([ROOT, FileRow(name)]);
    FileReads(name);
    forall i: nat ensures NamedWell(v, i) {
      if i == 0 { assert NameOf(v, 0) == "C:"; } else if i == 1 { assert NameOf(v, 1) == name; }
    }
    forall a: nat, b: nat ensures Distinguished(v, AsciiLower, a, b) {
      if Siblings(v, a, b) { assert a < 2 && b < 2; }
    }
  }

  lemma FileHasPath(name: string)
    ensures LogicalPath(BuiltView([ROOT, FileRow(name)]), 1).Ok?
  {
    var v := BuiltView([ROOT, FileRow(name)]);
    FileReads(name);
    assert NamesUp(v, 1, 0, 2) == Ok(["C:"]);
    assert NamesUp(v, 1, 1, 3) == Ok([name] + ["C:"]);
  }

  /** The path of a file named "a " is printed and does not resolve. */
  lemma TrailingSpaceDoesNotResolve()
    ensures var v := BuiltView([ROOT, FileRow("a ")]);
            && Resolvable(v, AsciiLower) && LogicalPath(v, 1).Ok?
            && PathToIdx(v, AsciiLower, LogicalPath(v, 1).value) != Ok(1)
  {
    var v := BuiltView([ROOT, FileRow("a ")]);
    FileReads("a ");
    FileIsResolvable("a ");
    FileHasPath("a ");
    AsciiFoldKeepsSpace();
    RoundTripIffNoTrailingSpace(v, AsciiLower, 1);
  }

  // ----- A short query after a rename -----

  lemma RenamedFileMatches(v: View, env: Env)
    requires env.fold == AsciiLower && VisitListed(v, 1) == Some(Visit("b", false))
    ensures ListedMatcher(v, env, "b")(1).Some?
  {
    assert AsciiLower("b") == "b";
    assert "b"[0..1] == "b";
    assert OccursAt("b", "b", 0, true);
    assert FindFrom("b", "b", 0, true) == Some(0);
  }

  lemma RenamedFile()
    ensures var v := SetLogicalName(BuiltView([ROOT, FileRow("a")]), 1, "b");
            && Inv(v) && LogicalLen(v) == 2 && BaseLen(v) == 2
            && VisitListed(v, 1) == Some(Visit("b", false)) && BaseName(v.base, 1) == Ok("a")
  {
    FileReads("a");
    BuiltNames([ROOT, FileRow("a")], 1);
    BuiltRecordAt([ROOT, FileRow("a")], 1);
    RenameRefines(BuiltView([ROOT, FileRow("a")]), 1, "b");
  }

  lemma RenameRefines(v: View, i: nat, name: string)
    requires Inv(v) && i < LogicalLen(v)
    ensures Inv(SetLogicalName(v, i, name))
  {
    var w := SetLogicalName(v, i, name);
    RenameKeepsIndexed(v, i, name);
    forall j: nat ensures ParentLive(w, j) {
      assert ParentLive(v, j);
      if j < LogicalLen(v) {
        RenameFrame(v, i, name, j);
        if StoredParent(v, j).Some? { StoredParentInRange(v, j); RenameFrame(v, i, name, StoredParent(v, j).value); }
      }
    }
  }

  /** File "a", renamed to "b" since the last compaction, is found by a scan for "b" but not by the short query "b". */
  lemma ShortQueryMissesRenamedFile(env: Env)
    requires env.fold == AsciiLower
    ensures var v := SetLogicalName(BuiltView([ROOT, FileRow("a")]), 1, "b");
            Inv(v) && Found(ScannedMatches(v, env, "b"), 1) && !Found(ShortMatches(v, env, "b"), 1)
  {
    var v := SetLogicalName(BuiltView([ROOT, FileRow("a")]), 1, "b");
    RenamedFile();
    RenamedFileMatches(v, env);
    ScanIsListed(v, env, "b");
    FoundInRange(ListedMatcher(v, env, "b"), 0, 2, 1);
    assert CharCount("b") == 1 by { assert "b"[..0] == ""; }
    assert !("b" <= AsciiLower("a"));
    ShortFindsIff(v, env, "b", 1);
  }
}
