/**
The migration ledger: every schema change is claimed in a row before it is executed and closed
after it.  Failures, lost connections and crashes leave a row behind that blocks everything else
until that exact change is retried.
*/
module MigrationLedger {
  import opened Wrappers

  // ---------------------------------------------------------------- changes and rows

  const LAST := 41
  const CONVERGENCE := 15

  predicate Superseded(v: int) { v == 13 || v == 14 }

  predicate Active(v: int) { 1 <= v <= LAST && !Superseded(v) }

  datatype Key = Version(number: nat) | Asset

  datatype State = Applying | Applied | Failed

  datatype Kind = Migration | AssetKind | UnknownKind

  datatype Row = Row(kind: Kind, version: Option<int>, filename: string,
                     sha: string, state: State, attempts: int, finished: bool)

  /** File names and checksums that the manifest pins, and the checksums of earlier station-admin
      assets.  Kind and version of a change are told by its key. */
  datatype Manifest = Manifest(filename: Key -> string, sha: Key -> string, earlierAssets: set<string>)

  function KindOf(key: Key): Kind { if key.Version? then Migration else AssetKind }

  function VersionOf(key: Key): Option<int> { if key.Version? then Some(key.number) else None }

  type Ledger = map<Key, Row>

  predicate Known(key: Key) { key.Version? ==> 1 <= key.number <= LAST }

  predicate Present(rows: Ledger, v: int) { v >= 0 && Version(v) in rows }

  predicate IsApplied(rows: Ledger, v: int) { Present(rows, v) && rows[Version(v)].state.Applied? }

  predicate Dirty(rows: Ledger, v: int) { Present(rows, v) && !rows[Version(v)].state.Applied? }

  // ---------------------------------------------------------------- which ledgers are accepted

  predicate MetadataFits(m: Manifest, key: Key, row: Row) {
    row.kind == KindOf(key) && row.version == VersionOf(key) && row.filename == m.filename(key)
  }

  predicate RowFits(m: Manifest, key: Key, row: Row, upgrade: bool) {
    && Known(key) && MetadataFits(m, key, row)
    && row.attempts >= 1 && (row.state.Applying? <==> !row.finished)
    && (row.sha == m.sha(key) || (key.Asset? && upgrade && row.sha in m.earlierAssets))
  }

  ghost predicate Fits(m: Manifest, rows: Ledger, upgrade: bool) {
    forall key :: key in rows ==> RowFits(m, key, rows[key], upgrade)
  }

  /** The active versions present are a prefix of the manifest, all but possibly the last applied. */
  ghost predicate Ordered(rows: Ledger) {
    forall u, v :: Active(u) && Active(v) && u < v && Present(rows, v) ==> IsApplied(rows, u)
  }

  /** Exactly the dirty version, superseded or not, is to be retried. */
  ghost predicate RetryMatches(rows: Ledger, retry: Option<nat>) {
    && (forall v :: 1 <= v <= LAST && Dirty(rows, v) ==> retry == Some(v))
    && (retry.Some? ==> 1 <= retry.value <= LAST && Dirty(rows, retry.value))
  }

  predicate AssetMatches(rows: Ledger, retryAsset: bool) {
    retryAsset <==> Asset in rows && !rows[Asset].state.Applied?
  }

  ghost predicate IsComplete(m: Manifest, rows: Ledger) {
    && (forall v :: Active(v) ==> IsApplied(rows, v))
    && Asset in rows && rows[Asset].state.Applied? && rows[Asset].sha == m.sha(Asset)
  }

  /** What `validate_ledger` accepts. */
  ghost predicate Accepts(m: Manifest, rows: Ledger, complete: bool, retry: Option<nat>, retryAsset: bool,
                          upgrade: bool)
  {
    && Fits(m, rows, upgrade) && Ordered(rows) && RetryMatches(rows, retry) && AssetMatches(rows, retryAsset)
    && (complete ==> IsComplete(m, rows))
  }

  // ---------------------------------------------------------------- the validator as it runs

  ghost predicate DistinctKeys(rows: seq<(Key, Row)>) {
    forall i, j :: 0 <= i < j < |rows| ==> rows[i].0 != rows[j].0
  }

  function Records(rows: seq<(Key, Row)>): Ledger {
    if rows == [] then map[] else Records(rows[..|rows| - 1])[rows[|rows| - 1].0 := rows[|rows| - 1].1]
  }

  lemma {:induction false} RecordsKeys(rows: seq<(Key, Row)>, key: Key)
    ensures key in Records(rows) <==> exists i :: 0 <= i < |rows| && rows[i].0 == key
  {
    if rows != [] {
      var n := |rows| - 1;
      RecordsKeys(rows[..n], key);
      if key in Records(rows[..n]) { var i :| 0 <= i < n && rows[..n][i].0 == key; assert rows[i].0 == key; }
      if exists i :: 0 <= i < |rows| && rows[i].0 == key {
        var i :| 0 <= i < |rows| && rows[i].0 == key;
        if i < n { assert rows[..n][i].0 == key; }
      }
    }
  }

  lemma {:induction false} RecordsFit(m: Manifest, rows: seq<(Key, Row)>, upgrade: bool)
    requires DistinctKeys(rows)
    ensures Fits(m, Records(rows), upgrade)
         <==> forall i :: 0 <= i < |rows| ==> RowFits(m, rows[i].0, rows[i].1, upgrade)
  {
    hide RowFits;
    if rows != [] {
      var n := |rows| - 1;
      RecordsFit(m, rows[..n], upgrade);
      RecordsKeys(rows[..n], rows[n].0);
      assert forall i :: 0 <= i < n ==> rows[..n][i] == rows[i];
      var before, after := Records(rows[..n]), Records(rows);
      assert after == before[rows[n].0 := rows[n].1] && rows[n].0 !in before;
      assert forall key :: key in after <==> key in before || key == rows[n].0;
      FitsNext(m, before, rows[n].0, rows[n].1, upgrade);
    }
  }

  lemma FitsNext(m: Manifest, before: Ledger, key: Key, row: Row, upgrade: bool)
    requires key !in before
    ensures Fits(m, before[key := row], upgrade) <==> Fits(m, before, upgrade) && RowFits(m, key, row, upgrade)
  {
    hide RowFits;
    var after := before[key := row];
    if Fits(m, after, upgrade) {
      assert key in after;
      forall k | k in before ensures RowFits(m, k, before[k], upgrade) { assert k in after; }
    }
  }

  /** The first pass: every row on its own, and the superseded versions that are dirty. */
  method CheckRows(m: Manifest, rows: seq<(Key, Row)>, upgrade: bool) returns (records: Option<Ledger>, dirty: set<int>)
    ensures records.Some? <==> DistinctKeys(rows) && Fits(m, Records(rows), upgrade)
    ensures records.Some? ==> records.value == Records(rows)
    ensures records.Some? ==> dirty == set v | v in {13, 14} && Dirty(Records(rows), v)
  {
    hide RowFits;
    var found: Ledger := map[];
    dirty := {};
    for i := 0 to |rows|
      invariant DistinctKeys(rows[..i]) && found == Records(rows[..i])
      invariant forall k :: 0 <= k < i ==> RowFits(m, rows[k].0, rows[k].1, upgrade)
      invariant dirty == set v | v in {13, 14} && Dirty(found, v)
    {
      var (key, row) := rows[i];
      assert rows[..i + 1][..i] == rows[..i];
      RecordsKeys(rows[..i], key);
      if key in found {
        var k :| 0 <= k < i && rows[..i][k].0 == key;
        assert rows[k].0 == rows[i].0;
        return None, dirty;
      }
      if !RowFits(m, key, row, upgrade) {
        if DistinctKeys(rows) { RecordsFit(m, rows, upgrade); }
        return None, dirty;
      }
      ghost var before := found;
      found := found[key := row];
      assert forall v ::
        Dirty(found, v) <==>
          Dirty(before, v) || (key == Version(if v >= 0 then v else 0) && v >= 0 && !row.state.Applied?);
      if key.Version? && Superseded(key.number) && !row.state.Applied? { dirty := dirty + {key.number}; }
    }
    assert rows[..|rows|] == rows;
    RecordsFit(m, rows, upgrade);
    records := Some(found);
  }

  /** The second pass: a gap or a dirty version forbids every later active version. */
  method CheckOrder(rows: Ledger) returns (ok: bool, dirty: Option<nat>)
    ensures ok <==> Ordered(rows)
    ensures ok && dirty.Some? ==> Active(dirty.value) && Dirty(rows, dirty.value)
    ensures ok ==> forall v :: Active(v) && Dirty(rows, v) ==> dirty == Some(v)
  {
    hide Present, IsApplied, Dirty, Active;
    var gap := false;
    dirty := None;
    ok := true;
    var v: nat := 1;
    ActiveRange(0);
    while v <= LAST
      invariant 1 <= v <= LAST + 1
      invariant gap <==> exists u :: 0 <= u < v && Active(u) && !Present(rows, u)
      invariant dirty.Some? ==> dirty.value < v && Active(dirty.value) && Dirty(rows, dirty.value)
      invariant forall u :: 0 <= u < v && Active(u) && Dirty(rows, u) ==> dirty == Some(u)
      invariant forall u, w :: 0 <= u < w < v && Active(u) && Active(w) && Present(rows, w) ==> IsApplied(rows, u)
    {
      ActiveRange(v);
      StateOf(rows, v);
      if Active(v) {
        if !Present(rows, v) {
          gap := true;
        } else if gap {
          var u :| 0 <= u < v && Active(u) && !Present(rows, u);
          StateOf(rows, u);
          return false, dirty;
        } else if dirty.Some? {
          StateOf(rows, dirty.value);
          return false, dirty;
        } else {
          forall u | 0 <= u < v && Active(u) ensures IsApplied(rows, u) { StateOf(rows, u); }
          if Dirty(rows, v) { dirty := Some(v); }
        }
      }
      v := v + 1;
    }
    forall u | Active(u) ensures 0 <= u <= LAST { ActiveRange(u); }
  }

  lemma ActiveRange(v: int)
    ensures Active(v) ==> 1 <= v <= LAST
  {
  }

  lemma StateOf(rows: Ledger, v: int)
    ensures IsApplied(rows, v) ==> Present(rows, v)
    ensures Dirty(rows, v) <==> Present(rows, v) && !IsApplied(rows, v)
  {
  }

  method ValidateLedger(m: Manifest, rows: seq<(Key, Row)>, complete: bool, retry: Option<nat>, retryAsset: bool,
                        upgrade: bool)
      returns (r: Result<Ledger>)
    ensures r.Success? <==> DistinctKeys(rows) && Accepts(m, Records(rows), complete, retry, retryAsset, upgrade)
    ensures r.Success? ==> r.value == Records(rows)
  {
    hide DistinctKeys, Fits, Ordered, Records, Dirty, IsApplied;
    var checked, superseded := CheckRows(m, rows, upgrade);
    if checked.None? { return Failure("ledger row is invalid"); }
    var records := checked.value;
    var ordered, dirty := CheckOrder(records);
    if !ordered { return Failure("ledger is out of order"); }
    DirtySplit(records, superseded, dirty);
    if dirty.Some? && superseded != {} { return Failure("more than one dirty migration"); }
    if |superseded| > 1 { return Failure("more than one dirty superseded migration"); }
    if dirty.Some? && retry != dirty { return Failure("retry the dirty version explicitly"); }
    if superseded != {} && !(retry.Some? && superseded == {retry.value}) {
      return Failure("retry the dirty version explicitly");
    }
    if dirty.None? && superseded == {} && retry.Some? { return Failure("version is not dirty"); }
    if Asset in records {
      var assetDirty := !records[Asset].state.Applied?;
      if assetDirty != retryAsset { return Failure("station-admin asset retry does not match"); }
      if complete && (assetDirty || records[Asset].sha != m.sha(Asset)) {
        return Failure("station-admin asset is incomplete");
      }
    } else if retryAsset {
      return Failure("station-admin asset is not dirty");
    }
    if complete {
      var v := 1;
      while v <= LAST
        invariant 1 <= v <= LAST + 1
        invariant forall u :: Active(u) && u < v ==> IsApplied(records, u)
      {
        if Active(v) && !IsApplied(records, v) { return Failure("active migrations are incomplete"); }
        v := v + 1;
      }
      if Asset !in records { return Failure("station-admin asset is incomplete"); }
    }
    return Success(records);
  }

  /** Dirty versions are the dirty active one and the dirty superseded ones. */
  lemma DirtySplit(rows: Ledger, superseded: set<int>, dirty: Option<nat>)
    requires superseded == set v | v in {13, 14} && Dirty(rows, v)
    requires dirty.Some? ==> Active(dirty.value) && Dirty(rows, dirty.value)
    requires forall v :: Active(v) && Dirty(rows, v) ==> dirty == Some(v)
    ensures forall v :: 1 <= v <= LAST && Dirty(rows, v) <==> v in superseded || (dirty.Some? && dirty.value == v)
    ensures |superseded| > 1 ==> superseded == {13, 14}
    ensures |superseded| <= 1 && superseded != {} ==> superseded == {13} || superseded == {14}
  {
    hide Dirty;
    assert superseded <= {13, 14};
    if 13 in superseded && 14 in superseded { assert superseded == {13, 14}; }
    else if 13 in superseded { assert superseded == {13}; }
    else if 14 in superseded { assert superseded == {14}; }
    else { assert superseded == {}; }
  }

  // ---------------------------------------------------------------- applying changes

  /** What can happen to one change: completed; claimed or not, with the answer lost; failed with or
      without the failure recorded; the connection lost while executing; or the completion lost. */
  datatype Outcome =
    | Completed
    | ClaimLost(claimed: bool)
    | ExecutionFailed(recorded: bool)
    | ExecutionLost
    | FinishLost(applied: bool)

  type Weather = Key -> Outcome

  /** The state the row is left in, if it was touched at all. */
  function Leaves(o: Outcome): Option<State> {
    match o
    case Completed => Some(Applied)
    case ClaimLost(claimed) => if claimed then Some(Applying) else None
    case ExecutionFailed(recorded) => Some(if recorded then Failed else Applying)
    case ExecutionLost => Some(Applying)
    case FinishLost(applied) => Some(if applied then Applied else Applying)
  }

  predicate Executes(o: Outcome) { !o.ClaimLost? }

  /** The row that `_claim` inserts, or writes over the one that is there. */
  function Claimed(m: Manifest, rows: Ledger, key: Key): Row {
    if key in rows then
      rows[key].(filename := m.filename(key), sha := m.sha(key), state := Applying,
                 attempts := rows[key].attempts + 1, finished := false)
    else
      Row(KindOf(key), VersionOf(key), m.filename(key), m.sha(key), Applying, 1, false)
  }

  /** The rows after `_claim` and everything that follows it. */
  function Touched(m: Manifest, rows: Ledger, key: Key, state: State): Ledger {
    rows[key := Claimed(m, rows, key).(state := state, finished := !state.Applying?)]
  }

  function AfterChange(m: Manifest, rows: Ledger, key: Key, o: Outcome): Ledger {
    if Leaves(o).Some? then Touched(m, rows, key, Leaves(o).value) else rows
  }

  /** Changes that this call passes over. */
  predicate Skips(m: Manifest, records: Ledger, key: Key, retry: Option<nat>) {
    || (key.Version? && Superseded(key.number) && retry != Some(key.number))
    || (key in records && records[key].state.Applied? && records[key].sha == m.sha(key)
        && !(key == Version(CONVERGENCE) && retry.Some? && Superseded(retry.value)))
  }

  datatype Walked = Walked(rows: Ledger, executed: seq<Key>, stopped: bool)

  function StepChange(m: Manifest, w: Walked, records: Ledger, key: Key, retry: Option<nat>, weather: Weather): Walked {
    if w.stopped || Skips(m, records, key, retry) then w
    else
      var o := weather(key);
      Walked(AfterChange(m, w.rows, key, o), if Executes(o) then w.executed + [key] else w.executed, !o.Completed?)
  }

  /** The first `n` versions of the manifest, in order. */
  function Walk(m: Manifest, records: Ledger, n: nat, retry: Option<nat>, weather: Weather): Walked {
    if n == 0 then Walked(records, [], false)
    else StepChange(m, Walk(m, records, n - 1, retry, weather), records, Version(n), retry, weather)
  }

  /** `apply`, on a ledger that was accepted: all versions, then the asset. */
  function ApplyAll(m: Manifest, records: Ledger, retry: Option<nat>, weather: Weather): Walked {
    StepChange(m, Walk(m, records, LAST, retry, weather), records, Asset, retry, weather)
  }

  class LedgerTable {
    var rows: Ledger
    /** Every execution of a change that ever began. */
    ghost var executed: seq<Key>

    constructor ()
      ensures rows == map[] && executed == []
    {
      rows, executed := map[], [];
    }

    /** Claims, executes and closes one change; the rows are exactly as the outcome leaves them. */
    method Run(m: Manifest, key: Key, o: Outcome) returns (completed: bool)
      modifies this
      ensures rows == AfterChange(m, old(rows), key, o) && completed == o.Completed?
      ensures executed == if Executes(o) then old(executed) + [key] else old(executed)
    {
      if o == ClaimLost(false) { return false; }
      rows := rows[key := Claimed(m, rows, key)];
      if o.ClaimLost? { return false; }
      executed := executed + [key];
      match o {
        case ExecutionFailed(recorded) =>
          if recorded { rows := rows[key := rows[key].(state := Failed, finished := true)]; }
          return false;
        case ExecutionLost => return false;
        case FinishLost(applied) =>
          if applied { rows := rows[key := rows[key].(state := Applied, finished := true)]; }
          return false;
        case Completed =>
          rows := rows[key := rows[key].(state := Applied, finished := true)];
          return true;
      }
    }

    /** Reads the whole table, each row once. */
    method Load() returns (stored: seq<(Key, Row)>)
      ensures DistinctKeys(stored) && Records(stored) == rows
    {
      stored := [];
      var left := rows.Keys;
      while left != {}
        invariant left <= rows.Keys && DistinctKeys(stored)
        invariant Records(stored) == map key | key in rows && key !in left :: rows[key]
        decreases |left|
      {
        var key :| key in left;
        ghost var before := stored;
        forall i | 0 <= i < |before| ensures before[i].0 != key { RecordsKeys(before, key); }
        stored := stored + [(key, rows[key])];
        assert stored[..|before|] == before;
        left := left - {key};
      }
    }

    /** One call of `apply`, with the validation before the first change and after the last. */
    method Apply(m: Manifest, retry: Option<nat>, retryAsset: bool, weather: Weather)
        returns (accepted: bool, completed: bool)
      modifies this
      ensures accepted <==> Accepts(m, old(rows), false, retry, retryAsset, true)
      ensures !accepted ==> rows == old(rows) && executed == old(executed) && !completed
      ensures accepted ==> var w := ApplyAll(m, old(rows), retry, weather);
        rows == w.rows && executed == old(executed) + w.executed
        && completed == (!w.stopped && Accepts(m, w.rows, true, None, false, false))
    {
      hide Skips, AfterChange, Accepts, Records, DistinctKeys;
      var stored := Load();
      var checked := ValidateLedger(m, stored, false, retry, retryAsset, true);
      if checked.Failure? { return false, false; }
      accepted := true;
      var records := checked.value;
      var n := 0;
      assert old(executed) + [] == old(executed);
      while n < LAST
        invariant 0 <= n <= LAST
        invariant var w := Walk(m, records, n, retry, weather);
          !w.stopped && rows == w.rows && executed == old(executed) + w.executed
      {
        ghost var before := Walk(m, records, n, retry, weather);
        n := n + 1;
        if Skips(m, records, Version(n), retry) { continue; }
        completed := Run(m, Version(n), weather(Version(n)));
        assert (old(executed) + before.executed) + [Version(n)] == old(executed) + (before.executed + [Version(n)]);
        if !completed {
          StoppedStays(m, records, n, LAST, retry, weather);
          return;
        }
      }
      ghost var before := Walk(m, records, LAST, retry, weather);
      if !Skips(m, records, Asset, retry) {
        completed := Run(m, Asset, weather(Asset));
        assert (old(executed) + before.executed) + [Asset] == old(executed) + (before.executed + [Asset]);
        if !completed { return; }
      }
      stored := Load();
      checked := ValidateLedger(m, stored, true, None, false, false);
      completed := checked.Success?;
    }
  }

  lemma {:induction false} StoppedStays(m: Manifest, records: Ledger, n: nat, to: nat, retry: Option<nat>,
                                        weather: Weather)
    requires n <= to && Walk(m, records, n, retry, weather).stopped
    ensures Walk(m, records, to, retry, weather) == Walk(m, records, n, retry, weather)
  {
    hide Skips, AfterChange;
    if n < to { StoppedStays(m, records, n, to - 1, retry, weather); }
  }
}
