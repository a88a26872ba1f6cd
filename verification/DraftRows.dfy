/**
 What becomes of the records of a volume, told by their numbers: each is one row
 with its name and flags, under the row of the parent that it names, unless its
 chain of parents ends nowhere, and then under the root.
 */
module DraftRows {
  import opened Basics
  import opened Records
  import opened Builder
  import opened DraftOrder

  /** The chain of parent numbers meets the root, a draft without parent, or one that is its own parent. */
  ghost predicate Grounded(drafts: seq<RowDraft>, i: nat, steps: nat)
    decreases steps
  {
    i < |drafts| &&
    (drafts[i].frs == 5 || drafts[i].parentFrs == 0xFFFF_FFFF || drafts[i].parentFrs == drafts[i].frs ||
     (steps > 0 && exists p: nat :: p < |drafts| && drafts[p].frs == drafts[i].parentFrs && Grounded(drafts, p, steps - 1)))
  }

  ghost predicate IsGrounded(drafts: seq<RowDraft>, i: nat) { exists steps: nat :: Grounded(drafts, i, steps) }

  lemma FoundIs(drafts: seq<RowDraft>, p: nat)
    requires OwnNumbers(drafts) && p < |drafts|
    ensures FindDraft(drafts, drafts[p].frs) == Some(p)
  {}

  lemma {:induction false} GroundedIsAnchored(drafts: seq<RowDraft>, root: nat, i: nat, steps: nat)
    requires OwnNumbers(drafts) && FindDraft(drafts, 5) == Some(root)
    ensures Grounded(drafts, i, steps) <==> AnchoredIn(drafts, root, i, steps)
    decreases steps
  {
    if i < |drafts| {
      FoundIs(drafts, i);
      if steps > 0 && !IsStart(drafts[i]) {
        var parent := ParentDraft(drafts, i);
        if parent.Some? { GroundedIsAnchored(drafts, root, parent.value, steps - 1); }
        forall p: nat | p < |drafts| && drafts[p].frs == drafts[i].parentFrs ensures parent == Some(p) {
          FoundIs(drafts, p);
        }
      }
    }
  }

  lemma GroundedIffAnchored(drafts: seq<RowDraft>, root: nat, i: nat)
    requires OwnNumbers(drafts) && FindDraft(drafts, 5) == Some(root)
    ensures IsGrounded(drafts, i) <==> Anchored(drafts, root, i)
  {
    forall steps: nat ensures Grounded(drafts, i, steps) <==> AnchoredIn(drafts, root, i, steps) {
      GroundedIsAnchored(drafts, root, i, steps);
    }
  }

  /** The row of draft `d` has no parent, or the row of the draft with this number. */
  ghost predicate RowUnder(adds: seq<Addition>, k: nat, frs: nat) {
    k < |adds| && adds[k].parentIdx < k && adds[adds[k].parentIdx].fileRef == RefOf(frs)
  }

  /**
   Row `k` carries one draft's number, name and flags. It has no parent if the draft
   is the root, names none or itself; it lies under its parent's row if its chain of
   parents ends somewhere; and otherwise it lies under the root.
   */
  lemma RowOfDraft(drafts: seq<RowDraft>, root: nat, order: seq<nat>, adds: seq<Addition>, k: nat)
    requires Complete(drafts, root, order, adds) && OwnNumbers(drafts) && FindDraft(drafts, 5) == Some(root)
    requires k < |adds| <= PARENT_NONE
    ensures order[k] < |drafts|
    ensures var a, d := adds[k], drafts[order[k]];
            && a.fileRef == FileRef(d.frs / 0x1_0000_0000_0000, d.frs % 0x1_0000_0000_0000)
            && a.name == d.name && a.flags == d.flags && a.rank == 0
            && if d.frs == 5 || d.parentFrs == 0xFFFF_FFFF || d.parentFrs == d.frs then a.parentIdx == 0xFFFF_FFFF
               else RowUnder(adds, k, if IsGrounded(drafts, order[k]) then d.parentFrs else 5)
  {
    var di := order[k];
    assert PlacedOk(drafts, root, order, adds, k);
    GroundedIffAnchored(drafts, root, di);
    FoundIs(drafts, di);
    var p := adds[k].parentIdx;
    if p < k { assert PlacedOk(drafts, root, order, adds, p); }
  }

  /** Every draft has such a row. */
  lemma EveryDraftHasRow(drafts: seq<RowDraft>, root: nat, order: seq<nat>, adds: seq<Addition>, di: nat) returns (k: nat)
    requires Complete(drafts, root, order, adds) && di < |drafts|
    ensures k < |adds| && order[k] == di && forall j :: 0 <= j < |order| && order[j] == di ==> j == k
  {
    assert di in order;
    k :| 0 <= k < |order| && order[k] == di;
  }
}
