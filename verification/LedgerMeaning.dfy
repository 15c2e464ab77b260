/**
The migration ledger in plain words: which tables `validate_ledger` accepts, told row by row, and what
one call of `apply` leaves behind, told change by change.
*/
module LedgerMeaning {
  import opened Wrappers
  import opened MigrationLedger

  // ---------------------------------------------------------------- tables that are accepted

  predicate RowAt(stored: seq<(Key, Row)>, i: int, key: Key) { 0 <= i < |stored| && stored[i].0 == key }

  /** Versions 1 to 41 and the asset; the row repeats what the manifest pins, unless an older asset is
      to be upgraded. */
  ghost predicate RowLegal(m: Manifest, key: Key, row: Row, upgrade: bool) {
    && (if key.Asset? then row.kind == AssetKind && row.version == None
        else 1 <= key.number <= 41 && row.kind == Migration && row.version == Some(key.number))
    && row.filename == m.filename(key) && row.attempts >= 1
    && (row.finished <==> row.state == Applied || row.state == Failed)
    && (row.sha != m.sha(key) ==> key == Asset && upgrade && row.sha in m.earlierAssets)
  }

  ghost predicate AppliedIn(stored: seq<(Key, Row)>, key: Key) {
    exists i :: RowAt(stored, i, key) && stored[i].1.state == Applied
  }

  ghost predicate DirtyIn(stored: seq<(Key, Row)>, key: Key) {
    exists i :: RowAt(stored, i, key) && stored[i].1.state != Applied
  }

  ghost predicate PresentIn(stored: seq<(Key, Row)>, key: Key) { exists i :: RowAt(stored, i, key) }

  ghost predicate LegalRows(m: Manifest, stored: seq<(Key, Row)>, upgrade: bool) {
    && (forall i, j :: 0 <= i < j < |stored| ==> stored[i].0 != stored[j].0)
    && (forall i :: 0 <= i < |stored| ==> RowLegal(m, stored[i].0, stored[i].1, upgrade))
  }

  /** A version that is there has every earlier one applied; 13 and 14 stand apart. */
  ghost predicate LegalOrder(stored: seq<(Key, Row)>) {
    forall u: nat, v: nat :: 1 <= u < v <= 41 && u !in {13, 14} && v !in {13, 14} && PresentIn(stored, Version(v)) ==>
      AppliedIn(stored, Version(u))
  }

  /** The version to be retried is dirty, and no other one is. */
  ghost predicate LegalRetry(stored: seq<(Key, Row)>, retry: Option<nat>, retryAsset: bool) {
    && (forall v: nat :: DirtyIn(stored, Version(v)) <==> retry == Some(v))
    && (retryAsset <==> DirtyIn(stored, Asset))
  }

  ghost predicate LegalEnd(m: Manifest, stored: seq<(Key, Row)>) {
    && (forall v: nat :: 1 <= v <= 41 && v !in {13, 14} ==> AppliedIn(stored, Version(v)))
    && (exists i :: RowAt(stored, i, Asset) && stored[i].1.state == Applied && stored[i].1.sha == m.sha(Asset))
  }

  lemma RowLegalIff(m: Manifest, key: Key, row: Row, upgrade: bool)
    ensures RowLegal(m, key, row, upgrade) <==> RowFits(m, key, row, upgrade)
  {
  }

  lemma {:induction false} RecordsHold(stored: seq<(Key, Row)>, key: Key)
    requires DistinctKeys(stored)
    ensures key in Records(stored) <==> PresentIn(stored, key)
    ensures forall i :: RowAt(stored, i, key) ==> key in Records(stored) && Records(stored)[key] == stored[i].1
  {
    if stored != [] {
      var n := |stored| - 1;
      RecordsHold(stored[..n], key);
      assert forall i :: i < n ==> (RowAt(stored, i, key) <==> RowAt(stored[..n], i, key));
      assert RowAt(stored, n, stored[n].0);
      if key in Records(stored) && key != stored[n].0 {
        var i :| RowAt(stored[..n], i, key);
        assert RowAt(stored, i, key);
      }
    }
  }

  lemma StatesHold(stored: seq<(Key, Row)>, v: nat)
    requires DistinctKeys(stored)
    ensures Present(Records(stored), v) <==> PresentIn(stored, Version(v))
    ensures IsApplied(Records(stored), v) <==> AppliedIn(stored, Version(v))
    ensures Dirty(Records(stored), v) <==> DirtyIn(stored, Version(v))
  {
    RecordsHold(stored, Version(v));
  }

  /** The table is accepted exactly when every row is legal, and so are order, retry and completeness. */
  lemma AcceptsIffLegal(m: Manifest, stored: seq<(Key, Row)>, complete: bool, retry: Option<nat>, retryAsset: bool,
                        upgrade: bool)
    ensures DistinctKeys(stored) && Accepts(m, Records(stored), complete, retry, retryAsset, upgrade)
       <==> LegalRows(m, stored, upgrade) && LegalOrder(stored) && LegalRetry(stored, retry, retryAsset)
              && (complete ==> LegalEnd(m, stored))
  {
    hide RowFits, RowLegal, Fits, Ordered, RetryMatches, AssetMatches, IsComplete, LegalOrder, LegalRetry, LegalEnd;
    forall key, row ensures RowLegal(m, key, row, upgrade) <==> RowFits(m, key, row, upgrade) {
      RowLegalIff(m, key, row, upgrade);
    }
    if DistinctKeys(stored) {
      RecordsFit(m, stored, upgrade);
      OrderIff(stored);
      EndIff(m, stored);
      AssetIff(stored, retryAsset);
      if LegalRows(m, stored, upgrade) { RetryIff(m, stored, retry, retryAsset, upgrade); }
    }
  }

  lemma OrderIff(stored: seq<(Key, Row)>)
    requires DistinctKeys(stored)
    ensures LegalOrder(stored) <==> Ordered(Records(stored))
  {
    hide Present, IsApplied, PresentIn, AppliedIn, DistinctKeys, Records;
    forall v: nat
      ensures Present(Records(stored), v) <==> PresentIn(stored, Version(v))
      ensures IsApplied(Records(stored), v) <==> AppliedIn(stored, Version(v))
    {
      StatesHold(stored, v);
    }
    if LegalOrder(stored) {
      forall u, v | Active(u) && Active(v) && u < v && Present(Records(stored), v)
      ensures IsApplied(Records(stored), u)
    {
        var x: nat, y: nat := u, v;
        assert PresentIn(stored, Version(y)) && AppliedIn(stored, Version(x));
      }
    }
  }

  lemma EndIff(m: Manifest, stored: seq<(Key, Row)>)
    requires DistinctKeys(stored)
    ensures LegalEnd(m, stored) <==> IsComplete(m, Records(stored))
  {
    hide IsApplied, AppliedIn, Records;
    RecordsHold(stored, Asset);
    forall v: nat ensures IsApplied(Records(stored), v) <==> AppliedIn(stored, Version(v)) { StatesHold(stored, v); }
    if LegalEnd(m, stored) {
      forall v | Active(v) ensures IsApplied(Records(stored), v) {
        var x: nat := v;
        assert AppliedIn(stored, Version(x));
      }
    }
  }

  lemma AssetIff(stored: seq<(Key, Row)>, retryAsset: bool)
    requires DistinctKeys(stored)
    ensures AssetMatches(Records(stored), retryAsset) <==> (retryAsset <==> DirtyIn(stored, Asset))
  {
    hide Records;
    RecordsHold(stored, Asset);
  }

  lemma RetryIff(m: Manifest, stored: seq<(Key, Row)>, retry: Option<nat>, retryAsset: bool, upgrade: bool)
    requires DistinctKeys(stored) && LegalRows(m, stored, upgrade)
    ensures LegalRetry(stored, retry, retryAsset)
       <==> RetryMatches(Records(stored), retry) && AssetMatches(Records(stored), retryAsset)
  {
    hide Records, Dirty;
    AssetIff(stored, retryAsset);
    forall v: nat
      ensures Dirty(Records(stored), v) <==> DirtyIn(stored, Version(v))
      ensures DirtyIn(stored, Version(v)) ==> 1 <= v <= 41
    {
      StatesHold(stored, v);
    }
    if RetryMatches(Records(stored), retry) {
      forall v: nat ensures DirtyIn(stored, Version(v)) <==> retry == Some(v) {}
    }
    if LegalRetry(stored, retry, retryAsset) {
      forall v | 1 <= v <= LAST && Dirty(Records(stored), v) ensures retry == Some(v) {
        var x: nat := v;
        assert DirtyIn(stored, Version(x));
      }
      if retry.Some? { assert DirtyIn(stored, Version(retry.value)); }
    }
  }

  // ---------------------------------------------------------------- what one call changes

  /** The changes in the order of the manifest, the asset last. */
  function Place(key: Key): nat { if key.Version? then key.number else 42 }

  predicate Listed(key: Key) { key.Version? ==> 1 <= key.number <= 41 }

  /** The change is due: a superseded version only when it is retried, any other unless it is applied with
      the checksum of the manifest; the convergence migration is repeated behind a superseded retry. */
  predicate Due(m: Manifest, records: Ledger, key: Key, retry: Option<nat>) {
    && Listed(key)
    && ((key == Version(13) || key == Version(14)) ==> retry == Some(key.number))
    && (key in records && records[key].state == Applied && records[key].sha == m.sha(key) ==>
          key == Version(15) && (retry == Some(13) || retry == Some(14)))
  }

  /** No due change before this one was left uncompleted. */
  ghost predicate Reached(m: Manifest, records: Ledger, key: Key, retry: Option<nat>, weather: Weather) {
    Due(m, records, key, retry)
    && forall k :: Due(m, records, k, retry) && Place(k) < Place(key) ==> weather(k) == Completed
  }

  /** The row that a reached change leaves, told by what happened to it. */
  predicate LeftBehind(m: Manifest, records: Ledger, rows: Ledger, key: Key, o: Outcome) {
    if o == ClaimLost(false) then Untouched(records, rows, key)
    else
      && key in rows && rows[key].filename == m.filename(key) && rows[key].sha == m.sha(key)
      && rows[key].attempts == (if key in records then records[key].attempts else 0) + 1
      && rows[key].kind == (if key in records then records[key].kind else if key.Asset? then AssetKind else Migration)
      && rows[key].version
         == (if key in records then records[key].version else if key.Asset? then None else Some(key.number))
      && rows[key].state ==
         (if o == Completed || o == FinishLost(true) then Applied
          else if o == ExecutionFailed(true) then Failed else Applying)
      && rows[key].finished == (rows[key].state != Applying)
  }

  predicate Untouched(records: Ledger, rows: Ledger, key: Key) {
    (key in rows <==> key in records) && (key in rows ==> rows[key] == records[key])
  }

  ghost predicate RowsLeft(m: Manifest, records: Ledger, retry: Option<nat>, weather: Weather, rows: Ledger, to: nat) {
    forall key ::
      if Place(key) <= to && Reached(m, records, key, retry, weather)
      then LeftBehind(m, records, rows, key, weather(key)) else Untouched(records, rows, key)
  }

  /** The executions that began: the reached changes whose claim was acknowledged, in order. */
  ghost predicate Executed(m: Manifest, records: Ledger, retry: Option<nat>, weather: Weather, executed: seq<Key>,
                           to: nat)
  {
    && (forall i, j :: 0 <= i < j < |executed| ==> Place(executed[i]) < Place(executed[j]))
    && (forall key :: key in executed <==>
          Place(key) <= to && Reached(m, records, key, retry, weather) && !weather(key).ClaimLost?)
  }

  ghost predicate Halted(m: Manifest, records: Ledger, retry: Option<nat>, weather: Weather, to: nat) {
    exists key :: Due(m, records, key, retry) && Place(key) <= to && weather(key) != Completed
  }

  /** What the walk has done after the changes up to `to`. */
  ghost predicate WalkedMeans(m: Manifest, records: Ledger, retry: Option<nat>, weather: Weather, w: Walked, to: nat) {
    && RowsLeft(m, records, retry, weather, w.rows, to) && Executed(m, records, retry, weather, w.executed, to)
    && (w.stopped <==> Halted(m, records, retry, weather, to))
  }

  lemma DueIff(m: Manifest, records: Ledger, key: Key, retry: Option<nat>)
    requires Listed(key)
    ensures Due(m, records, key, retry) <==> !Skips(m, records, key, retry)
  {
  }

  lemma PlacesApart(key: Key, k: Key)
    requires Listed(key) && Listed(k) && Place(key) == Place(k)
    ensures key == k
  {
  }

  lemma LeavesBehind(m: Manifest, records: Ledger, rows: Ledger, key: Key, o: Outcome)
    requires Untouched(records, rows, key)
    ensures LeftBehind(m, records, AfterChange(m, rows, key, o), key, o)
    ensures forall k :: k != key ==> Untouched(rows, AfterChange(m, rows, key, o), k)
  {
  }

  /** One more change of the walk. */
  lemma StepMeans(m: Manifest, records: Ledger, retry: Option<nat>, weather: Weather, w: Walked, key: Key)
    requires Listed(key) && Place(key) >= 1 && WalkedMeans(m, records, retry, weather, w, Place(key) - 1)
    ensures WalkedMeans(m, records, retry, weather, StepChange(m, w, records, key, retry, weather), Place(key))
  {
    hide Skips, AfterChange, LeftBehind, Untouched, Due;
    var to := Place(key);
    var next := StepChange(m, w, records, key, retry, weather);
    DueIff(m, records, key, retry);
    forall k | Due(m, records, k, retry) && Place(k) == to ensures k == key {
      DueIsListed(m, records, k, retry);
      PlacesApart(key, k);
    }
    assert Due(m, records, key, retry) && !w.stopped <==> Reached(m, records, key, retry, weather);
    RowsStep(m, records, retry, weather, w, key);
    ExecutedStep(m, records, retry, weather, w, key);
  }

  lemma DueIsListed(m: Manifest, records: Ledger, key: Key, retry: Option<nat>)
    requires Due(m, records, key, retry)
    ensures Listed(key)
  {
  }

  lemma RowsStep(m: Manifest, records: Ledger, retry: Option<nat>, weather: Weather, w: Walked, key: Key)
    requires Listed(key) && Place(key) >= 1 && RowsLeft(m, records, retry, weather, w.rows, Place(key) - 1)
    requires Reached(m, records, key, retry, weather) <==> !w.stopped && !Skips(m, records, key, retry)
    ensures RowsLeft(m, records, retry, weather, StepChange(m, w, records, key, retry, weather).rows, Place(key))
  {
    hide Skips, AfterChange, Reached, LeftBehind, Untouched;
    var next := StepChange(m, w, records, key, retry, weather);
    var reached := Reached(m, records, key, retry, weather);
    assert Untouched(records, w.rows, key);
    if reached { LeavesBehind(m, records, w.rows, key, weather(key)); }
    forall k
      ensures if Place(k) <= Place(key) && Reached(m, records, k, retry, weather)
              then LeftBehind(m, records, next.rows, k, weather(k)) else Untouched(records, next.rows, k)
    {
      if k != key {
        KeptAlong(m, records, w.rows, next.rows, k, weather(k));
        if Place(k) == Place(key) && Reached(m, records, k, retry, weather) {
          ReachedIsListed(m, records, k, retry, weather);
          PlacesApart(k, key);
        }
      }
    }
  }

  lemma ReachedIsListed(m: Manifest, records: Ledger, key: Key, retry: Option<nat>, weather: Weather)
    requires Reached(m, records, key, retry, weather)
    ensures Listed(key)
  {
  }

  lemma KeptAlong(m: Manifest, records: Ledger, rows: Ledger, next: Ledger, key: Key, o: Outcome)
    ensures Untouched(rows, next, key) && LeftBehind(m, records, rows, key, o) ==>
      LeftBehind(m, records, next, key, o)
    ensures Untouched(rows, next, key) && Untouched(records, rows, key) ==> Untouched(records, next, key)
    ensures Untouched(rows, rows, key)
  {
  }

  lemma ExecutedStep(m: Manifest, records: Ledger, retry: Option<nat>, weather: Weather, w: Walked, key: Key)
    requires Listed(key) && Place(key) >= 1 && Executed(m, records, retry, weather, w.executed, Place(key) - 1)
    requires Reached(m, records, key, retry, weather) <==> !w.stopped && !Skips(m, records, key, retry)
    ensures Executed(m, records, retry, weather, StepChange(m, w, records, key, retry, weather).executed, Place(key))
  {
    hide Skips, AfterChange, Reached;
    var next := StepChange(m, w, records, key, retry, weather);
    forall i | 0 <= i < |w.executed| ensures Place(w.executed[i]) < Place(key) { assert w.executed[i] in w.executed; }
    forall k
      ensures k in next.executed <==>
        Place(k) <= Place(key) && Reached(m, records, k, retry, weather) && !weather(k).ClaimLost?
    {
      if Place(k) == Place(key) && Reached(m, records, k, retry, weather) {
        ReachedIsListed(m, records, k, retry, weather);
        PlacesApart(k, key);
      }
    }
  }

  lemma NothingWalked(m: Manifest, records: Ledger, retry: Option<nat>, weather: Weather)
    ensures WalkedMeans(m, records, retry, weather, Walked(records, [], false), 0)
  {
    assert forall key :: Place(key) <= 0 ==> !Due(m, records, key, retry);
  }

  lemma {:induction false} WalkMeans(m: Manifest, records: Ledger, n: nat, retry: Option<nat>, weather: Weather)
    requires n <= 41
    ensures WalkedMeans(m, records, retry, weather, Walk(m, records, n, retry, weather), n)
  {
    hide WalkedMeans, StepChange;
    if n == 0 {
      NothingWalked(m, records, retry, weather);
    } else {
      WalkMeans(m, records, n - 1, retry, weather);
      StepMeans(m, records, retry, weather, Walk(m, records, n - 1, retry, weather), Version(n));
    }
  }

  /** One accepted call: every due change up to the first that is not completed is claimed and left as its
      outcome says, in the order of the manifest; every other row stays as it was. */
  lemma ApplyMeans(m: Manifest, records: Ledger, retry: Option<nat>, weather: Weather)
    ensures WalkedMeans(m, records, retry, weather, ApplyAll(m, records, retry, weather), 42)
  {
    hide WalkedMeans, StepChange, Walk;
    WalkMeans(m, records, 41, retry, weather);
    StepMeans(m, records, retry, weather, Walk(m, records, 41, retry, weather), Asset);
  }
}
