/**
 The specification of an index: a finite map from 48-bit record number to name,
 parent number and directory flag, updated one record at a time by events.
 */
module VolumeTree {
  import opened Basics
  import opened Records
  import opened Chains
  import opened Paths

  datatype Node = Node(name: string, parent: Option<nat>, isDir: bool)

  type Tree = map<nat, Node>

  predicate HasName(e: UsnEvent) { e.name.Some? && e.name.value != "" }

  function TreeCreate(t: Tree, e: UsnEvent): Tree {
    if !HasName(e) then t
    else
      var parent := if e.parentRef.Some? then MftRecordNumber(e.parentRef.value) else 0;
      var isDir := e.flags.Some? && HasDirectoryFlag(e.flags.value);
      t[MftRecordNumber(e.fileRef) := Node(e.name.value, Some(parent), isDir)]
  }

  function TreeDelete(t: Tree, n: nat): Tree { t - {n} }

  function TreeRename(t: Tree, n: nat, e: UsnEvent): Tree {
    if n in t && HasName(e) then t[n := t[n].(name := e.name.value)] else t
  }

  function TreeMove(t: Tree, n: nat, e: UsnEvent): Tree {
    if n in t && e.parentRef.Some? && MftRecordNumber(e.parentRef.value) in t
    then t[n := t[n].(parent := Some(MftRecordNumber(e.parentRef.value)))]
    else t
  }

  /** A rename or move of an unknown record is a create; unknown parents are ignored. */
  function TreeRenameMove(t: Tree, e: UsnEvent): Tree {
    var n := MftRecordNumber(e.fileRef);
    if n !in t then TreeCreate(t, e) else TreeMove(TreeRename(t, n, e), n, e)
  }

  function TreeApply(t: Tree, e: UsnEvent): Tree {
    match e.kind
    case Delete => TreeDelete(t, MftRecordNumber(e.fileRef))
    case Create => TreeCreate(t, e)
    case Rename => TreeRenameMove(t, e)
    case Move => TreeRenameMove(t, e)
    case Metadata => t
  }

  function TreeApplyAll(t: Tree, events: seq<UsnEvent>): Tree {
    if events == [] then t
    else TreeApply(TreeApplyAll(t, events[..|events| - 1]), events[|events| - 1])
  }

  /** Events come from journal entries, which carry the directory flag at most. */
  ghost predicate EventFlagsOk(e: UsnEvent) {
    e.flags.Some? ==> !HasTombstoneFlag(e.flags.value)
  }

  /** What the file system guarantees: creates are fresh, deletes leave no child behind. */
  ghost predicate WellFormed(t: Tree, e: UsnEvent) {
    var n := MftRecordNumber(e.fileRef);
    && EventFlagsOk(e)
    && (e.kind == Create && HasName(e) ==> n !in t)
    && (e.kind == Delete && n in t ==> Childless(t, n))
  }

  ghost predicate Childless(t: Tree, n: nat) {
    forall m :: m in t && m != n ==> t[m].parent != Some(n)
  }

  ghost predicate WellFormedAll(t: Tree, events: seq<UsnEvent>) {
    events == [] ||
    (var init := events[..|events| - 1];
     WellFormedAll(t, init) && WellFormed(TreeApplyAll(t, init), events[|events| - 1]))
  }

  lemma {:induction false} TreeApplyAllConcat(t: Tree, a: seq<UsnEvent>, b: seq<UsnEvent>)
    ensures TreeApplyAll(t, a + b) == TreeApplyAll(TreeApplyAll(t, a), b)
    ensures WellFormedAll(t, a + b) <==> WellFormedAll(t, a) && WellFormedAll(TreeApplyAll(t, a), b)
    decreases |b|
  {
    if b == [] {
      assert a + b == a;
    } else {
      var init := b[..|b| - 1];
      TreeApplyAllConcat(t, a, init);
      assert (a + b)[..|a + b| - 1] == a + init;
    }
  }

  // ----- Reading a tree -----

  ghost function NodeIn(t: Tree, n: nat): Option<Node> { if n in t then Some(t[n]) else None }

  lemma TreesEqual(a: Tree, b: Tree)
    requires forall n: nat :: NodeIn(a, n) == NodeIn(b, n)
    ensures a == b
  {
    forall n ensures (n in a <==> n in b) && (n in a ==> a[n] == b[n]) {
      assert NodeIn(a, n) == NodeIn(b, n);
    }
  }

  /** The parent that a reader sees: a parent that is not there counts as none. */
  function Up(t: Tree, n: nat): Option<nat> {
    if n in t && t[n].parent.Some? && t[n].parent.value in t then t[n].parent else None
  }

  function UpForest(t: Tree): (f: Forest)
    ensures f.Keys == t.Keys && |f| == |t|
  {
    var f := map n | n in t :: Up(t, n);
    assert f.Keys == t.Keys;
    assert |f| == |f.Keys| && |t| == |t.Keys|;
    f
  }

  ghost predicate Settled(t: Tree) {
    forall n :: n in t && t[n].parent.Some? ==> t[n].parent.value in t
  }

  /** The tree with every unresolved parent turned into none. */
  function Settle(t: Tree): Tree {
    map n | n in t :: t[n].(parent := Up(t, n))
  }

  lemma SettleIsIdentityIffSettled(t: Tree)
    ensures Settle(t) == t <==> Settled(t)
  {
    if Settle(t) == t {
      forall n | n in t && t[n].parent.Some? ensures t[n].parent.value in t {
        assert Settle(t)[n] == t[n];
      }
    }
  }

  function ChildNumbers(t: Tree, n: nat): set<nat> {
    set m | m in t && Up(t, m) == Some(n)
  }

  function NamesAlong(t: Tree, chain: seq<nat>): (names: seq<string>)
    ensures |names| == |chain|
  {
    if chain == [] then []
    else [if chain[0] in t then t[chain[0]].name else ""] + NamesAlong(t, chain[1..])
  }

  /** Names from `n` up to its root, if a root is met within `fuel` records. */
  function TreeNames(t: Tree, n: nat, fuel: nat): Option<seq<string>> {
    match Chain(UpForest(t), n, fuel)
    case None => None
    case Some(chain) => Some(NamesAlong(t, chain))
  }

  lemma TreeNamesStep(t: Tree, n: nat, fuel: nat)
    requires n in t && fuel > 0
    ensures Up(t, n).None? ==> TreeNames(t, n, fuel) == Some([t[n].name])
    ensures Up(t, n).Some? ==>
              TreeNames(t, n, fuel) ==
              match TreeNames(t, Up(t, n).value, fuel - 1)
              case None => None
              case Some(rest) => Some([t[n].name] + rest)
  {
    var up := Up(t, n);
    assert UpForest(t)[n] == up;
    if up.None? {
      assert [n][1..] == [];
      assert NamesAlong(t, [n]) == [t[n].name];
    } else {
      var rest := Chain(UpForest(t), up.value, fuel - 1);
      if rest.Some? {
        assert ([n] + rest.value)[1..] == rest.value;
      }
    }
  }

  /** The printed path of a record, or None when its parents form a cycle. */
  function TreePath(t: Tree, n: nat): Option<string> {
    match TreeNames(t, n, |t|)
    case None => None
    case Some(names) => Some(PathOf(names))
  }

  /** Any number of steps that covers the whole tree gives the same names. */
  lemma TreeNamesEnough(t: Tree, n: nat, fuel: nat)
    requires |t| <= fuel
    ensures TreeNames(t, n, fuel) == TreeNames(t, n, |t|)
  {
    ChainWithinSize(UpForest(t), n, fuel);
  }
}
