/**
Parallel workers.  Each commit of a full run touches one group, and a group has one worker; so the
commits may interleave in any way.  What a worker reads of its own groups, and the store that is
left in the end, do not depend on it, and receipts stay honoured throughout.
*/
module Interleaving {
  import opened PartStore
  import opened GroupCrawl

  /** A committed transaction: parts with their receipt, a missing page, or a page without parts. */
  datatype Write =
    | Wrote(group: int, run: int, parts: seq<Part>, complete: bool, count: nat)
    | Missed(group: int, run: int)
    | Emptied(group: int, run: int)

  function Apply(store: Store, w: Write): Store {
    match w
    case Wrote(group, run, parts, complete, count) => Block(store, group, parts, run, complete, count)
    case Missed(group, run) => NotFoundStore(store, group, run)
    case Emptied(group, run) => MarkFetched(store, group, run, Done, 0)
  }

  function ApplyAll(store: Store, ws: seq<Write>): Store {
    if ws == [] then store else Apply(ApplyAll(store, ws[..|ws| - 1]), ws[|ws| - 1])
  }

  /** What the part parser guarantees of every write. */
  ghost predicate Parsed(ws: seq<Write>) {
    forall w :: w in ws && w.Wrote? ==> DistinctKeys(w.parts)
  }

  /** The writes to some groups, in their order. */
  function Of(ws: seq<Write>, groups: set<int>): seq<Write> {
    if ws == [] then []
    else
      var n := |ws| - 1;
      Of(ws[..n], groups) + if ws[n].group in groups then [ws[n]] else []
  }

  // ---------------------------------------------------------------- one group

  ghost predicate SameGroup(a: Store, b: Store, g: int) {
    && (forall k: PartKey :: SameAt(a.parts, b.parts, (g, k)))
    && (g in a.receipts <==> g in b.receipts) && (g in a.receipts ==> a.receipts[g] == b.receipts[g])
  }

  lemma ApplyElsewhere(store: Store, w: Write, g: int)
    requires w.group != g && Parsed([w])
    ensures SameGroup(Apply(store, w), store, g)
  {
    hide InsertAll;
    if w.Wrote? {
      assert w in [w];
      forall k: PartKey ensures SameAt(Apply(store, w).parts, store.parts, (g, k)) {
        BlockLeavesOthers(store, w.group, w.parts, w.run, w.complete, w.count, (g, k));
      }
    }
  }

  lemma ApplyHere(a: Store, b: Store, w: Write)
    requires SameGroup(a, b, w.group) && Parsed([w])
    ensures SameGroup(Apply(a, w), Apply(b, w), w.group)
  {
    hide InsertAll;
    if w.Wrote? {
      assert w in [w];
      hide SameAt;
      forall k: PartKey ensures SameAt(Apply(a, w).parts, Apply(b, w).parts, (w.group, k)) {
        BlockSameAt(a, b, w.group, w.parts, w.run, w.complete, w.count, (w.group, k));
      }
    }
  }

  lemma SameGroupTrans(a: Store, b: Store, c: Store, g: int)
    requires SameGroup(a, b, g) && SameGroup(b, c, g)
    ensures SameGroup(a, c, g)
  {
    forall k: PartKey ensures SameAt(a.parts, c.parts, (g, k)) {
      assert SameAt(a.parts, b.parts, (g, k)) && SameAt(b.parts, c.parts, (g, k));
    }
  }

  /** Of its own groups a worker sees what its own writes made, whatever others commit in between. */
  lemma {:induction false} OwnWritesDecide(store: Store, ws: seq<Write>, groups: set<int>, g: int)
    requires Parsed(ws) && g in groups
    ensures SameGroup(ApplyAll(store, ws), ApplyAll(store, Of(ws, groups)), g)
  {
    hide Apply, SameGroup;
    if ws == [] {
      assert SameGroup(store, store, g) by { Reflexive(store, g); }
    } else {
      var n := |ws| - 1;
      var w, own := ws[n], Of(ws[..n], groups);
      var before, alone := ApplyAll(store, ws[..n]), ApplyAll(store, own);
      OwnWritesDecide(store, ws[..n], groups, g);
      assert Parsed([w]);
      assert (own + [w])[..|own|] == own && own + [] == own;
      if w.group == g {
        ApplyHere(before, alone, w);
      } else {
        ApplyElsewhere(before, w, g);
        SameGroupTrans(Apply(before, w), before, alone, g);
        ApplyElsewhere(alone, w, g);
        SameGroupSym(Apply(alone, w), alone, g);
        SameGroupTrans(Apply(before, w), alone, Apply(alone, w), g);
      }
    }
  }

  lemma Reflexive(store: Store, g: int)
    ensures SameGroup(store, store, g)
  {
  }

  lemma SameGroupSym(a: Store, b: Store, g: int)
    requires SameGroup(a, b, g)
    ensures SameGroup(b, a, g)
  {
    forall k: PartKey ensures SameAt(b.parts, a.parts, (g, k)) { assert SameAt(a.parts, b.parts, (g, k)); }
  }

  // ---------------------------------------------------------------- all groups

  lemma SameStore(a: Store, b: Store)
    requires forall g :: SameGroup(a, b, g)
    ensures a == b
  {
    forall k: RowKey ensures SameAt(a.parts, b.parts, k) {
      assert SameGroup(a, b, k.0) && k == (k.0, k.1);
    }
    SameEverywhere(a.parts, b.parts);
    forall g ensures g in a.receipts <==> g in b.receipts { assert SameGroup(a, b, g); }
    forall g | g in a.receipts ensures a.receipts[g] == b.receipts[g] { assert SameGroup(a, b, g); }
    assert a.receipts == b.receipts;
  }

  /** Two orders of the commits that agree on every single group leave the same store: in particular all
      interleavings of workers that share no group. */
  lemma InterleavingsAgree(store: Store, xs: seq<Write>, ys: seq<Write>)
    requires Parsed(xs) && Parsed(ys) && forall g :: Of(xs, {g}) == Of(ys, {g})
    ensures ApplyAll(store, xs) == ApplyAll(store, ys)
  {
    hide Apply, ApplyAll, SameGroup;
    var a, b := ApplyAll(store, xs), ApplyAll(store, ys);
    forall g ensures SameGroup(a, b, g) {
      OwnWritesDecide(store, xs, {g}, g);
      OwnWritesDecide(store, ys, {g}, g);
      SameGroupSym(b, ApplyAll(store, Of(ys, {g})), g);
      SameGroupTrans(a, ApplyAll(store, Of(xs, {g})), b, g);
    }
    SameStore(a, b);
  }

  // ---------------------------------------------------------------- receipts

  /** Every done receipt of the run stands for as many rows of the run as it counts. */
  ghost predicate ReceiptsHold(store: Store, run: int) {
    forall g :: g in store.receipts && store.receipts[g].run == run && store.receipts[g].status.Done? ==>
      |Members(store, g, run)| >= store.receipts[g].count
  }

  /** What the workers of a full run commit: whole pages, with a receipt that counts their parts. */
  ghost predicate FullRun(ws: seq<Write>, run: int) {
    Parsed(ws) && forall w :: w in ws ==> w.run == run && (w.Wrote? ==> w.complete && w.count == |w.parts|)
  }

  lemma MembersSame(a: Store, b: Store, g: int, run: int)
    requires SameGroup(a, b, g)
    ensures Members(a, g, run) == Members(b, g, run)
  {
    forall k: RowKey ensures k in Members(a, g, run) <==> k in Members(b, g, run) {
      if k.0 == g { assert k == (g, k.1) && SameAt(a.parts, b.parts, (g, k.1)); }
    }
  }

  lemma WriteHolds(store: Store, w: Write, run: int)
    requires ReceiptsHold(store, run) && FullRun([w], run)
    ensures ReceiptsHold(Apply(store, w), run)
  {
    hide InsertAll, SameGroup, SameAt;
    assert w in [w];
    var after := Apply(store, w);
    forall g | g in after.receipts && after.receipts[g].run == run && after.receipts[g].status.Done?
      ensures |Members(after, g, run)| >= after.receipts[g].count
    {
      if g != w.group {
        ApplyElsewhere(store, w, g);
        MembersSame(after, store, g, run);
        assert g in store.receipts && after.receipts[g] == store.receipts[g];
      } else if w.Wrote? {
        BlockOwned(store, g, w.parts, run, true, w.count);
        OwnRows(after, g, w.parts, run);
      }
    }
  }

  lemma OwnRows(store: Store, g: int, parts: seq<Part>, run: int)
    requires DistinctKeys(parts) && RowKeys(g, parts) <= Owned(store, run)
    ensures |Members(store, g, run)| >= |parts|
  {
    RowKeysCount(g, parts);
    var own := RowKeys(g, parts);
    assert own <= Members(store, g, run);
    assert Members(store, g, run) == own + (Members(store, g, run) - own);
  }

  /** However the commits of any number of workers of a full run interleave, every receipt is honoured. */
  lemma {:induction false} EveryInterleavingHolds(store: Store, ws: seq<Write>, run: int)
    requires ReceiptsHold(store, run) && FullRun(ws, run)
    ensures ReceiptsHold(ApplyAll(store, ws), run)
  {
    hide Apply, ReceiptsHold;
    if ws != [] {
      var n := |ws| - 1;
      EveryInterleavingHolds(store, ws[..n], run);
      assert ws[n] in ws;
      WriteHolds(ApplyAll(store, ws[..n]), ws[n], run);
    }
  }

  /** A call of a worker in full mode is at most one of these writes, to its own group. */
  lemma CallIsAWrite(before: Store, after: Store, group: int, run: int, page: Page) returns (ws: seq<Write>)
    requires OneWrite(before, after, group, run, page) && (page.Page? ==> DistinctKeys(page.parts))
    ensures |ws| <= 1 && (forall w :: w in ws ==> w.group == group)
    ensures FullRun(ws, run) && ApplyAll(before, ws) == after
  {
    ws := if after == before then []
          else if after == NotFoundStore(before, group, run) then [Missed(group, run)]
          else if page.parts == [] && after == MarkFetched(before, group, run, Done, 0) then [Emptied(group, run)]
          else [Wrote(group, run, page.parts, true, |page.parts|)];
    assert ws != [] ==> ws[..0] == [];
  }
}
