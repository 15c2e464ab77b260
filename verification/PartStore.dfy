/**
The tables behind one part group: `parts` with its unique key and run membership, and the group
receipt.  Statements are functions on the store; transactions are in the next module.
*/
module PartStore {
  import opened Wrappers

  /** Part number and range: with the group, the unique key of a part row. */
  type PartKey = (string, string)

  type RowKey = (int, PartKey)

  /** `seen` is the run that owns the row, if any. */
  datatype PartRow = PartRow(payload: string, seen: Option<int>)

  /** `eligible` is the verdict of the quality gate on the record and its vehicle. */
  datatype Part = Part(key: PartKey, payload: string, eligible: bool)

  datatype ReceiptStatus = Done | NotFound

  datatype Receipt = Receipt(run: int, status: ReceiptStatus, count: nat)

  datatype Store = Store(parts: map<RowKey, PartRow>, receipts: map<int, Receipt>)

  /** What the part parser guarantees: one record for every natural key of the page. */
  ghost predicate DistinctKeys(parts: seq<Part>) {
    forall i, j :: 0 <= i < j < |parts| ==> parts[i].key != parts[j].key
  }

  // ---------------------------------------------------------------- statements

  /** `INSERT … ON DUPLICATE KEY UPDATE`, one row after the other. */
  function InsertAll(rows: map<RowKey, PartRow>, group: int, parts: seq<Part>, run: int): map<RowKey, PartRow> {
    if parts == [] then rows
    else
      var last := parts[|parts| - 1];
      InsertAll(rows, group, parts[..|parts| - 1], run)[(group, last.key) := PartRow(last.payload, Some(run))]
  }

  /** Releases the rows of a group that another run owned. */
  function ClearStale(rows: map<RowKey, PartRow>, group: int, run: int): map<RowKey, PartRow> {
    map k | k in rows :: if k.0 == group && rows[k].seen != Some(run) then rows[k].(seen := None) else rows[k]
  }

  /** Releases the given rows of a run. */
  function ClearKeys(rows: map<RowKey, PartRow>, keys: set<RowKey>): map<RowKey, PartRow> {
    map k | k in rows :: if k in keys then rows[k].(seen := None) else rows[k]
  }

  function MarkFetched(store: Store, group: int, run: int, status: ReceiptStatus, count: nat): Store {
    store.(receipts := store.receipts[group := Receipt(run, status, count)])
  }

  function Upsert(store: Store, group: int, parts: seq<Part>, run: int, complete: bool): Store {
    var inserted := InsertAll(store.parts, group, parts, run);
    store.(parts := if complete then ClearStale(inserted, group, run) else inserted)
  }

  /** Parts, and for a complete group the receipt, as one unit. */
  function Block(store: Store, group: int, parts: seq<Part>, run: int, complete: bool, count: nat): Store {
    var written := Upsert(store, group, parts, run, complete);
    if complete then MarkFetched(written, group, run, Done, count) else written
  }

  // ---------------------------------------------------------------- who owns what

  function Owned(store: Store, run: int): set<RowKey> {
    set k | k in store.parts && store.parts[k].seen == Some(run)
  }

  function Members(store: Store, group: int, run: int): set<RowKey> {
    set k | k in store.parts && k.0 == group && store.parts[k].seen == Some(run)
  }

  function RowKeys(group: int, parts: seq<Part>): set<RowKey> {
    set p | p in parts :: (group, p.key)
  }

  lemma {:induction false} InsertedAt(rows: map<RowKey, PartRow>, group: int, parts: seq<Part>, run: int, k: RowKey)
    requires DistinctKeys(parts)
    ensures k in InsertAll(rows, group, parts, run) <==> k in rows || k in RowKeys(group, parts)
    ensures k !in RowKeys(group, parts) && k in rows ==> InsertAll(rows, group, parts, run)[k] == rows[k]
    ensures forall p :: p in parts && k == (group, p.key) ==>
              k in InsertAll(rows, group, parts, run)
                && InsertAll(rows, group, parts, run)[k] == PartRow(p.payload, Some(run))
  {
    if parts != [] {
      var n := |parts| - 1;
      InsertedAt(rows, group, parts[..n], run, k);
      assert parts == parts[..n] + [parts[n]];
      assert RowKeys(group, parts) == RowKeys(group, parts[..n]) + {(group, parts[n].key)};
      forall p | p in parts[..n] ensures p.key != parts[n].key {
        var i :| 0 <= i < n && parts[i] == p;
      }
    }
  }

  lemma RowKeysNext(group: int, parts: seq<Part>)
    requires parts != []
    ensures var n := |parts| - 1;
      && RowKeys(group, parts) == RowKeys(group, parts[..n]) + {(group, parts[n].key)}
      && (DistinctKeys(parts) <==> DistinctKeys(parts[..n]) && (group, parts[n].key) !in RowKeys(group, parts[..n]))
  {
    var n := |parts| - 1;
    assert parts == parts[..n] + [parts[n]];
    if (group, parts[n].key) in RowKeys(group, parts[..n]) {
      var i :| 0 <= i < n && parts[i].key == parts[n].key;
    } else {
      forall i | 0 <= i < n ensures parts[i].key != parts[n].key { assert parts[i] in parts[..n]; }
    }
  }

  lemma {:induction false} RowKeysCount(group: int, parts: seq<Part>)
    ensures |RowKeys(group, parts)| <= |parts| && (|RowKeys(group, parts)| == |parts| <==> DistinctKeys(parts))
  {
    if parts != [] {
      hide RowKeys, DistinctKeys;
      RowKeysCount(group, parts[..|parts| - 1]);
      RowKeysNext(group, parts);
    }
  }

  /** Writing parts adds exactly their rows to what the run owns, complete or not. */
  lemma BlockOwned(store: Store, group: int, parts: seq<Part>, run: int, complete: bool, count: nat)
    requires DistinctKeys(parts)
    ensures Owned(Block(store, group, parts, run, complete, count), run) == Owned(store, run) + RowKeys(group, parts)
  {
    hide InsertAll;
    var after := Block(store, group, parts, run, complete, count);
    forall k ensures k in Owned(after, run) <==> k in Owned(store, run) + RowKeys(group, parts) {
      InsertedAt(store.parts, group, parts, run, k);
    }
  }

  /** Rows of other groups, and their owners, are untouched. */
  lemma BlockLeavesOthers(store: Store, group: int, parts: seq<Part>, run: int, complete: bool, count: nat, k: RowKey)
    requires DistinctKeys(parts) && k.0 != group
    ensures var after := Block(store, group, parts, run, complete, count);
      (k in after.parts <==> k in store.parts) && (k in store.parts ==> after.parts[k] == store.parts[k])
  {
    hide InsertAll;
    InsertedAt(store.parts, group, parts, run, k);
  }

  /** Running the block twice leaves what running it once leaves. */
  lemma BlockIsIdempotent(store: Store, group: int, parts: seq<Part>, run: int, complete: bool, count: nat)
    requires DistinctKeys(parts)
    ensures var once := Block(store, group, parts, run, complete, count);
      Block(once, group, parts, run, complete, count) == once
  {
    hide InsertAll;
    var once := Block(store, group, parts, run, complete, count);
    var twice := Block(once, group, parts, run, complete, count);
    forall k ensures (k in twice.parts <==> k in once.parts) && (k in once.parts ==> twice.parts[k] == once.parts[k]) {
      InsertedAt(store.parts, group, parts, run, k);
      InsertedAt(once.parts, group, parts, run, k);
      if k in RowKeys(group, parts) { var p :| p in parts && k == (group, p.key); }
    }
    assert twice.parts == once.parts;
  }

  // ---------------------------------------------------------------- releasing rows

  lemma ClearKeysOwned(store: Store, keys: set<RowKey>, run: int)
    ensures Owned(store.(parts := ClearKeys(store.parts, keys)), run) == Owned(store, run) - keys
  {
  }

  lemma MembersOwned(store: Store, group: int, run: int)
    ensures Members(store, group, run) <= Owned(store, run)
  {
  }

  // ---------------------------------------------------------------- two runs, two groups

  /** A write of another run takes exactly the rows it writes from a run's membership in the group, and a
      complete write takes all of them: the membership survives when and only when it is apart. */
  lemma OtherRunsMembers(store: Store, group: int, parts: seq<Part>, mine: int, other: int, n: nat)
    requires mine != other && DistinctKeys(parts)
    ensures var before, after :=
      Members(store, group, mine), Members(Block(store, group, parts, other, false, n), group, mine);
      after == before - RowKeys(group, parts) && (|after| == |before| <==> before !! RowKeys(group, parts))
    ensures Members(Block(store, group, parts, other, true, n), group, mine) == {}
  {
    hide InsertAll;
    var before, after := Members(store, group, mine), Members(Block(store, group, parts, other, false, n), group, mine);
    forall k ensures k in after <==> k in before - RowKeys(group, parts) {
      InsertedAt(store.parts, group, parts, other, k);
      if k in RowKeys(group, parts) { var p :| p in parts && k == (group, p.key); }
    }
    assert before == (before - RowKeys(group, parts)) + before * RowKeys(group, parts);
    forall k ensures k !in Members(Block(store, group, parts, other, true, n), group, mine) {
      InsertedAt(store.parts, group, parts, other, k);
      if k in RowKeys(group, parts) { var p :| p in parts && k == (group, p.key); }
    }
  }

  predicate SameAt(a: map<RowKey, PartRow>, b: map<RowKey, PartRow>, k: RowKey) {
    (k in a <==> k in b) && (k in a ==> a[k] == b[k])
  }

  lemma SameEverywhere(a: map<RowKey, PartRow>, b: map<RowKey, PartRow>)
    requires forall k :: SameAt(a, b, k)
    ensures a == b
  {
    forall k ensures (k in a <==> k in b) && (k in a ==> a[k] == b[k]) { assert SameAt(a, b, k); }
  }

  lemma BlockSameAt(a: Store, b: Store, group: int, parts: seq<Part>, run: int, complete: bool, count: nat, k: RowKey)
    requires DistinctKeys(parts) && SameAt(a.parts, b.parts, k)
    ensures SameAt(Block(a, group, parts, run, complete, count).parts,
                   Block(b, group, parts, run, complete, count).parts, k)
  {
    hide InsertAll;
    InsertedAt(a.parts, group, parts, run, k);
    InsertedAt(b.parts, group, parts, run, k);
    if k in RowKeys(group, parts) { var p :| p in parts && k == (group, p.key); }
  }

  /** Blocks of different groups commute, whichever runs write them: the commits of parallel workers can be
      put in any order, so each worker's own block may be read as if it ran alone. */
  lemma BlocksCommute(store: Store, g: int, ps: seq<Part>, r: int, c: bool, m: nat, h: int, qs: seq<Part>, s: int,
                      d: bool, n: nat)
    requires g != h && DistinctKeys(ps) && DistinctKeys(qs)
    ensures Block(Block(store, g, ps, r, c, m), h, qs, s, d, n) == Block(Block(store, h, qs, s, d, n), g, ps, r, c, m)
  {
    hide InsertAll, Block;
    var one, two := Block(store, g, ps, r, c, m), Block(store, h, qs, s, d, n);
    var left, right := Block(one, h, qs, s, d, n), Block(two, g, ps, r, c, m);
    forall k ensures SameAt(left.parts, right.parts, k) {
      if k.0 == g {
        BlockLeavesOthers(store, h, qs, s, d, n, k);
        BlockLeavesOthers(one, h, qs, s, d, n, k);
        BlockSameAt(store, two, g, ps, r, c, m, k);
      } else {
        BlockLeavesOthers(store, g, ps, r, c, m, k);
        BlockLeavesOthers(two, g, ps, r, c, m, k);
        BlockSameAt(store, one, h, qs, s, d, n, k);
      }
    }
    SameEverywhere(left.parts, right.parts);
    BlockReceipts(store, g, ps, r, c, m);
    BlockReceipts(store, h, qs, s, d, n);
    BlockReceipts(one, h, qs, s, d, n);
    BlockReceipts(two, g, ps, r, c, m);
    assert left.receipts == right.receipts;
  }

  lemma BlockReceipts(store: Store, group: int, parts: seq<Part>, run: int, complete: bool, count: nat)
    ensures Block(store, group, parts, run, complete, count).receipts
         == if complete then store.receipts[group := Receipt(run, Done, count)] else store.receipts
  {
    hide InsertAll, ClearStale;
  }

  // ---------------------------------------------------------------- keys under a collation

  /** What the table compares instead of the key: its collation may fold case and accents away. */
  type Collation = PartKey -> PartKey

  function Folded(parts: seq<Part>, fold: Collation): (folded: seq<Part>)
    ensures |folded| == |parts| && forall i :: 0 <= i < |parts| ==> folded[i] == parts[i].(key := fold(parts[i].key))
  {
    seq(|parts|, i requires 0 <= i < |parts| => parts[i].(key := fold(parts[i].key)))
  }

  /** Who owns a row after inserts, also where keys repeat. */
  lemma {:induction false} InsertedOwner(rows: map<RowKey, PartRow>, group: int, parts: seq<Part>, run: int, k: RowKey)
    ensures var after := InsertAll(rows, group, parts, run);
      && (k in after <==> k in rows || k in RowKeys(group, parts))
      && (k in after ==> after[k].seen == if k in RowKeys(group, parts) then Some(run) else rows[k].seen)
  {
    if parts != [] {
      var n := |parts| - 1;
      InsertedOwner(rows, group, parts[..n], run, k);
      assert parts == parts[..n] + [parts[n]];
      assert RowKeys(group, parts) == RowKeys(group, parts[..n]) + {(group, parts[n].key)};
    }
  }

  /** The receipt of a complete group counts the parts of the page; the table then holds that many rows
      exactly when no two of their keys are equal under its collation. */
  lemma ReceiptCountsRowsIff(store: Store, group: int, parts: seq<Part>, fold: Collation, run: int)
    requires Members(store, group, run) <= RowKeys(group, Folded(parts, fold))
    ensures var after := Block(store, group, Folded(parts, fold), run, true, |parts|);
      && after.receipts[group] == Receipt(run, Done, |parts|) && |Members(after, group, run)| <= |parts|
      && (|Members(after, group, run)| == |parts| <==> DistinctKeys(Folded(parts, fold)))
  {
    hide InsertAll;
    var folded := Folded(parts, fold);
    var after := Block(store, group, folded, run, true, |parts|);
    forall k ensures k in Members(after, group, run) <==> k in RowKeys(group, folded) {
      InsertedOwner(store.parts, group, folded, run, k);
    }
    assert Members(after, group, run) == RowKeys(group, folded);
    RowKeysCount(group, folded);
  }

  /** The spelling that the table keeps of each key: the first one that was inserted. */
  function Spelled(spellings: map<PartKey, PartKey>, parts: seq<Part>, fold: Collation): map<PartKey, PartKey> {
    if parts == [] then spellings
    else
      var last := parts[|parts| - 1].key;
      var before := Spelled(spellings, parts[..|parts| - 1], fold);
      if fold(last) in before then before else before[fold(last) := last]
  }

  /** `part_ids_for_evidence` looks every part up by its exact key and refuses the page if one is missing. */
  predicate EvidenceFinds(spellings: map<PartKey, PartKey>, parts: seq<Part>, fold: Collation) {
    forall p :: p in parts ==> fold(p.key) in spellings && spellings[fold(p.key)] == p.key
  }

  /** No part of the page meets a row that is spelled otherwise. */
  ghost predicate SpelledAlike(spellings: map<PartKey, PartKey>, parts: seq<Part>, fold: Collation) {
    forall p :: p in parts && fold(p.key) in spellings ==> spellings[fold(p.key)] == p.key
  }

  lemma {:induction false} SpelledAt(spellings: map<PartKey, PartKey>, parts: seq<Part>, fold: Collation, k: PartKey)
    ensures var after := Spelled(spellings, parts, fold);
      && (k in spellings ==> k in after && after[k] == spellings[k])
      && (k in after && k !in spellings ==> exists p :: p in parts && fold(p.key) == k && after[k] == p.key)
      && (forall p :: p in parts && fold(p.key) == k ==> k in after)
  {
    if parts != [] {
      var n := |parts| - 1;
      SpelledAt(spellings, parts[..n], fold, k);
      assert parts == parts[..n] + [parts[n]];
    }
  }

  lemma FoldedDistinctIff(parts: seq<Part>, fold: Collation)
    requires DistinctKeys(parts)
    ensures DistinctKeys(Folded(parts, fold))
       <==> forall p, q :: p in parts && q in parts && fold(p.key) == fold(q.key) ==> p.key == q.key
  {
    var folded := Folded(parts, fold);
    if DistinctKeys(folded) {
      forall p, q | p in parts && q in parts && fold(p.key) == fold(q.key) ensures p.key == q.key {
        var i :| 0 <= i < |parts| && parts[i] == p;
        var j :| 0 <= j < |parts| && parts[j] == q;
        assert folded[i].key == folded[j].key;
      }
    } else {
      var i, j :| 0 <= i < j < |folded| && folded[i].key == folded[j].key;
      assert parts[i] in parts && parts[j] in parts;
    }
  }

  /** Evidence binds a page exactly when no two of its keys are equal under the collation and none meets a
      row with another spelling: where the receipt would count too many rows, evidence has refused. */
  lemma EvidenceFindsIff(spellings: map<PartKey, PartKey>, parts: seq<Part>, fold: Collation)
    requires DistinctKeys(parts)
    ensures EvidenceFinds(Spelled(spellings, parts, fold), parts, fold)
       <==> DistinctKeys(Folded(parts, fold)) && SpelledAlike(spellings, parts, fold)
  {
    hide DistinctKeys;
    FoldedDistinctIff(parts, fold);
    var after := Spelled(spellings, parts, fold);
    forall p | p in parts ensures fold(p.key) in after { SpelledAt(spellings, parts, fold, fold(p.key)); }
    if EvidenceFinds(after, parts, fold) {
      forall p | p in parts && fold(p.key) in spellings ensures spellings[fold(p.key)] == p.key {
        SpelledAt(spellings, parts, fold, fold(p.key));
      }
      forall p, q | p in parts && q in parts && fold(p.key) == fold(q.key) ensures p.key == q.key {
        assert after[fold(p.key)] == p.key && after[fold(q.key)] == q.key;
      }
    } else {
      var p :| p in parts && after[fold(p.key)] != p.key;
      SpelledAt(spellings, parts, fold, fold(p.key));
    }
  }

  // ---------------------------------------------------------------- two modes

  /** A bounded, truncated write takes rows from a full run and leaves that run's receipt standing:
      what a receipt promises holds of the runs of one mode only. */
  lemma TruncatedWriteStealsMembership(store: Store, group: int, part: Part, full: int, bounded: int, n: nat)
    requires full != bounded && n > 0
    requires store.receipts == map[group := Receipt(full, Done, n)]
      && Members(store, group, full) == {(group, part.key)}
    ensures var after := Block(store, group, [part], bounded, false, 1);
      after.receipts[group] == Receipt(full, Done, n) && Members(after, group, full) == {}
  {
    hide InsertAll;
    var after := Block(store, group, [part], bounded, false, 1);
    forall k ensures k !in Members(after, group, full) {
      InsertedAt(store.parts, group, [part], bounded, k);
      if k == (group, part.key) {
        assert part in [part];
      } else {
        assert k !in Members(store, group, full);
      }
    }
  }
}
