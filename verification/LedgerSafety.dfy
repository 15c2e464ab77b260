/**
Over any sequence of applies, failures, lost connections, crashes and explicit retries, the ledger
stays a prefix of the manifest with at most one dirty version, and some retry arguments are always
accepted.
*/
module LedgerSafety {
  import opened Wrappers
  import opened MigrationLedger

  ghost predicate OneDirty(rows: Ledger) {
    forall u, v :: 1 <= u <= LAST && 1 <= v <= LAST && Dirty(rows, u) && Dirty(rows, v) ==> u == v
  }

  /** A superseded version is dirty only where retrying it can disturb nothing: everything before it
      is applied, and nothing after the convergence migration is present. */
  ghost predicate SupersededSafe(rows: Ledger) {
    forall d :: Superseded(d) && Dirty(rows, d) ==>
      (forall u :: Active(u) && u < d ==> IsApplied(rows, u))
        && (forall u :: Active(u) && u > CONVERGENCE ==> !Present(rows, u))
  }

  ghost predicate Inv(m: Manifest, rows: Ledger) {
    Fits(m, rows, true) && Ordered(rows) && OneDirty(rows) && SupersededSafe(rows)
  }

  lemma NewLedgerInv(m: Manifest)
    ensures Inv(m, map[])
  {
  }

  /** The dirty version, if there is one. */
  ghost function RetryFor(rows: Ledger): Option<nat> {
    if v :| 1 <= v <= LAST && Dirty(rows, v) then Some(v) else None
  }

  /** There are always arguments with which `apply` is accepted: retry exactly what is dirty. */
  lemma AlwaysRetryable(m: Manifest, rows: Ledger)
    requires Inv(m, rows)
    ensures Accepts(m, rows, false, RetryFor(rows), Asset in rows && !rows[Asset].state.Applied?, true)
  {
    hide Fits, Ordered, SupersededSafe;
  }

  // ---------------------------------------------------------------- half-way through an apply

  predicate SameAt(a: Ledger, b: Ledger, key: Key) {
    (key in a <==> key in b) && (key in a ==> a[key] == b[key])
  }

  /** After the first `n` versions without a stop: they are applied, the rest is as it was. */
  ghost predicate Midway(m: Manifest, records: Ledger, rows: Ledger, n: nat, retry: Option<nat>) {
    && Fits(m, rows, true)
    && (forall u :: Active(u) && u <= n ==> IsApplied(rows, u))
    && (forall v: nat :: v > n ==> SameAt(records, rows, Version(v))) && SameAt(records, rows, Asset)
    && (forall d :: Superseded(d) && d <= n ==>
          if retry == Some(d) then IsApplied(rows, d) else SameAt(records, rows, Version(d)))
  }

  lemma TouchedAt(m: Manifest, rows: Ledger, key: Key, o: Outcome, other: Key)
    ensures other != key ==> SameAt(rows, AfterChange(m, rows, key, o), other)
    ensures o.Completed? && key.Version? ==> IsApplied(AfterChange(m, rows, key, o), key.number)
    ensures key in rows ==> key in AfterChange(m, rows, key, o)
  {
  }

  lemma TouchedFits(m: Manifest, rows: Ledger, key: Key, o: Outcome)
    requires Fits(m, rows, true) && Known(key)
    ensures Fits(m, AfterChange(m, rows, key, o), true)
  {
    var after := AfterChange(m, rows, key, o);
    forall k | k in after ensures RowFits(m, k, after[k], true) {
      if k != key { assert k in rows; }
    }
    assert key in rows ==> RowFits(m, key, rows[key], true);
  }

  /** A version is in the same state in both ledgers. */
  predicate SameStateAt(a: Ledger, b: Ledger, v: int) {
    (Present(a, v) <==> Present(b, v)) && (IsApplied(a, v) <==> IsApplied(b, v)) && (Dirty(a, v) <==> Dirty(b, v))
  }

  lemma SameState(a: Ledger, b: Ledger, v: nat)
    requires SameAt(a, b, Version(v))
    ensures SameStateAt(a, b, v)
  {
  }

  /** A version that this call does not pass over has no later active version beside it. */
  lemma NothingLater(m: Manifest, records: Ledger, n: nat, retry: Option<nat>, retryAsset: bool)
    requires Inv(m, records) && Accepts(m, records, false, retry, retryAsset, true)
    requires Active(n) && !Skips(m, records, Version(n), retry)
    ensures forall v :: Active(v) && v > n ==> !Present(records, v)
    ensures forall v :: n < v <= LAST ==> !Dirty(records, v)
  {
    assert Version(n) in records ==> RowFits(m, Version(n), records[Version(n)], true);
    if IsApplied(records, n) {
      assert n == CONVERGENCE && retry.Some? && Superseded(retry.value) && Dirty(records, retry.value);
    } else {
      assert forall v :: Active(v) && v > n ==> !Present(records, v);
      assert forall v :: n < v <= LAST && Dirty(records, v) ==> IsApplied(records, n);
    }
  }

  lemma SkipMidway(m: Manifest, records: Ledger, rows: Ledger, n: nat, retry: Option<nat>)
    requires 1 <= n <= LAST && Midway(m, records, rows, n - 1, retry) && Skips(m, records, Version(n), retry)
    requires RetryMatches(records, retry)
    ensures Midway(m, records, rows, n, retry)
  {
    hide Fits;
    assert SameAt(records, rows, Version(n));
  }

  lemma SameTrans(a: Ledger, b: Ledger, c: Ledger, key: Key)
    requires SameAt(a, b, key) && SameAt(b, c, key)
    ensures SameAt(a, c, key)
  {
  }

  lemma CompletedMidway(m: Manifest, records: Ledger, rows: Ledger, n: nat, retry: Option<nat>, o: Outcome)
    requires 1 <= n <= LAST && Midway(m, records, rows, n - 1, retry) && !Skips(m, records, Version(n), retry)
      && o.Completed?
    ensures Midway(m, records, AfterChange(m, rows, Version(n), o), n, retry)
  {
    hide Fits, AfterChange, SameAt;
    var after := AfterChange(m, rows, Version(n), o);
    TouchedFits(m, rows, Version(n), o);
    TouchedAt(m, rows, Version(n), o, Version(n));
    forall other | other != Version(n) ensures SameAt(rows, after, other) { TouchedAt(m, rows, Version(n), o, other); }
    forall v: nat | v > n ensures SameAt(records, after, Version(v)) { SameTrans(records, rows, after, Version(v)); }
    SameTrans(records, rows, after, Asset);
    forall u | Active(u) && u <= n ensures IsApplied(after, u) {
      if u < n { SameState(rows, after, u); }
    }
    forall d | Superseded(d) && d <= n
      ensures if retry == Some(d) then IsApplied(after, d) else SameAt(records, after, Version(d))
    {
      if d < n {
        if retry == Some(d) { SameState(rows, after, d); } else { SameTrans(records, rows, after, Version(d)); }
      }
    }
  }

  /** A change that does not complete stops the call; what it leaves is a ledger like before. */
  lemma StopKeepsInv(m: Manifest, records: Ledger, rows: Ledger, n: nat, retry: Option<nat>, retryAsset: bool,
                     o: Outcome)
    requires Inv(m, records) && Accepts(m, records, false, retry, retryAsset, true)
    requires 1 <= n <= LAST && Midway(m, records, rows, n - 1, retry) && !Skips(m, records, Version(n), retry)
    ensures Inv(m, AfterChange(m, rows, Version(n), o))
  {
    hide Fits, AfterChange, SameAt;
    var after := AfterChange(m, rows, Version(n), o);
    TouchedFits(m, rows, Version(n), o);
    forall v: nat | v != n ensures SameStateAt(rows, after, v) {
      TouchedAt(m, rows, Version(n), o, Version(v));
      SameState(rows, after, v);
    }
    forall v: nat | v > n ensures SameStateAt(records, after, v) {
      assert SameStateAt(rows, after, v);
      SameState(records, rows, v);
    }
    if Active(n) { NothingLater(m, records, n, retry, retryAsset); }
    forall u | Active(u) && u < n ensures IsApplied(after, u) {
      var w: nat := u;
      assert SameStateAt(rows, after, w);
    }
    StoppedOrdered(records, after, n);
    StoppedClean(m, records, rows, after, n, retry, retryAsset);
  }

  lemma StoppedOrdered(records: Ledger, after: Ledger, n: nat)
    requires Ordered(records) && (forall u :: Active(u) && u < n ==> IsApplied(after, u))
    requires forall v: nat :: v > n ==> SameStateAt(records, after, v)
    requires Active(n) ==> forall v :: Active(v) && v > n ==> !Present(records, v)
    ensures Ordered(after)
  {
    hide Present, IsApplied;
    forall u, v | Active(u) && Active(v) && u < v && Present(after, v) ensures IsApplied(after, u) {
      if u >= n {
        var w: nat := v;
        assert SameStateAt(records, after, w);
        if u > n { var x: nat := u; assert SameStateAt(records, after, x); }
      }
    }
  }

  lemma StoppedClean(m: Manifest, records: Ledger, rows: Ledger, after: Ledger, n: nat, retry: Option<nat>,
                     retryAsset: bool)
    requires Inv(m, records) && Accepts(m, records, false, retry, retryAsset, true)
    requires 1 <= n <= LAST && Midway(m, records, rows, n - 1, retry) && !Skips(m, records, Version(n), retry)
    requires forall v: nat :: v != n ==> SameStateAt(rows, after, v)
    requires forall v: nat :: v > n ==> SameStateAt(records, after, v)
    ensures OneDirty(after) && SupersededSafe(after)
  {
    hide Fits;
    forall v | 1 <= v <= LAST && v != n ensures !Dirty(after, v) {
      var w: nat := v;
      assert SameStateAt(rows, after, w) && (v > n ==> SameStateAt(records, after, w));
      if v < n {
        if Superseded(v) && retry != Some(w) {
          assert SameAt(records, rows, Version(w));
          SameState(records, rows, w);
        }
      } else if Active(n) {
        NothingLater(m, records, n, retry, retryAsset);
      }
    }
    forall d | Superseded(d) && Dirty(after, d)
      ensures (forall u :: Active(u) && u < d ==> IsApplied(after, u))
        && (forall u :: Active(u) && u > CONVERGENCE ==> !Present(after, u))
    {
      assert d == n && Dirty(records, d);
      forall u | Active(u) && u < d ensures IsApplied(after, u) {
        var w: nat := u;
        assert SameStateAt(rows, after, w);
      }
      forall u | Active(u) && u > CONVERGENCE ensures !Present(after, u) {
        var w: nat := u;
        assert SameStateAt(records, after, w);
      }
    }
  }

  // ---------------------------------------------------------------- a whole apply

  /** As long as nothing stopped it, a walk over an accepted ledger is where it should be. */
  lemma {:induction false} WalkMidway(m: Manifest, records: Ledger, n: nat, retry: Option<nat>, retryAsset: bool,
                                      weather: Weather)
    requires Accepts(m, records, false, retry, retryAsset, true) && n <= LAST
    ensures var w := Walk(m, records, n, retry, weather);
      !w.stopped ==> Midway(m, records, w.rows, n, retry)
  {
    hide Midway, Skips, AfterChange, Fits, Ordered;
    if n == 0 {
      StartMidway(m, records, retry);
    } else {
      WalkMidway(m, records, n - 1, retry, retryAsset, weather);
      var w, o := Walk(m, records, n - 1, retry, weather), weather(Version(n));
      if !w.stopped {
        if Skips(m, records, Version(n), retry) {
          SkipMidway(m, records, w.rows, n, retry);
        } else if o.Completed? {
          CompletedMidway(m, records, w.rows, n, retry, o);
        }
      }
    }
  }

  lemma {:induction false} WalkKeeps(m: Manifest, records: Ledger, n: nat, retry: Option<nat>, retryAsset: bool,
                                     weather: Weather)
    requires Inv(m, records) && Accepts(m, records, false, retry, retryAsset, true) && n <= LAST
    ensures var w := Walk(m, records, n, retry, weather);
      w.stopped ==> Inv(m, w.rows)
  {
    hide Inv, Accepts, Midway, Skips, AfterChange;
    if n > 0 {
      WalkKeeps(m, records, n - 1, retry, retryAsset, weather);
      WalkMidway(m, records, n - 1, retry, retryAsset, weather);
      var w, o := Walk(m, records, n - 1, retry, weather), weather(Version(n));
      if !w.stopped && !Skips(m, records, Version(n), retry) && !o.Completed? {
        StopKeepsInv(m, records, w.rows, n, retry, retryAsset, o);
      }
    }
  }

  lemma StartMidway(m: Manifest, records: Ledger, retry: Option<nat>)
    requires Fits(m, records, true)
    ensures Midway(m, records, records, 0, retry)
  {
    hide Fits;
  }

  lemma AcceptedRetry(m: Manifest, records: Ledger, retry: Option<nat>, retryAsset: bool)
    requires Accepts(m, records, false, retry, retryAsset, true)
    ensures RetryMatches(records, retry)
  {
  }

  lemma AllAppliedInv(m: Manifest, records: Ledger, rows: Ledger, retry: Option<nat>)
    requires Midway(m, records, rows, LAST, retry) && RetryMatches(records, retry)
    ensures Inv(m, rows)
  {
    hide Fits;
    forall v | 1 <= v <= LAST ensures !Dirty(rows, v) {
      var w: nat := v;
      if Active(v) {
        assert IsApplied(rows, v);
      } else if retry == Some(w) {
        assert IsApplied(rows, v);
      } else {
        assert SameAt(records, rows, Version(w));
        SameState(records, rows, w);
        assert !Dirty(records, v);
      }
    }
  }

  lemma AssetKeeps(m: Manifest, rows: Ledger, o: Outcome)
    requires Inv(m, rows)
    ensures Inv(m, AfterChange(m, rows, Asset, o))
  {
    hide Fits, AfterChange;
    TouchedFits(m, rows, Asset, o);
    var after := AfterChange(m, rows, Asset, o);
    forall v: nat ensures SameStateAt(rows, after, v) {
      TouchedAt(m, rows, Asset, o, Version(v));
      SameState(rows, after, v);
    }
    SameOrder(rows, after);
  }

  lemma SameOrder(a: Ledger, b: Ledger)
    requires forall v: nat :: SameStateAt(a, b, v)
    ensures (Ordered(a) ==> Ordered(b)) && (OneDirty(a) ==> OneDirty(b)) && (SupersededSafe(a) ==> SupersededSafe(b))
  {
    forall v
      ensures (Present(a, v) <==> Present(b, v)) && (IsApplied(a, v) <==> IsApplied(b, v))
        && (Dirty(a, v) <==> Dirty(b, v))
    {
      if v >= 0 { var w: nat := v; assert SameStateAt(a, b, w); }
    }
    hide Present, IsApplied, Dirty;
  }

  /** An accepted apply leaves a ledger like before, whatever happens to each change. */
  lemma ApplyKeepsInv(m: Manifest, records: Ledger, retry: Option<nat>, retryAsset: bool, weather: Weather)
    requires Inv(m, records) && Accepts(m, records, false, retry, retryAsset, true)
    ensures Inv(m, ApplyAll(m, records, retry, weather).rows)
  {
    hide Inv, Accepts, Midway, Skips, AfterChange, Walk;
    WalkKeeps(m, records, LAST, retry, retryAsset, weather);
    WalkMidway(m, records, LAST, retry, retryAsset, weather);
    AcceptedRetry(m, records, retry, retryAsset);
    var w := Walk(m, records, LAST, retry, weather);
    if !w.stopped {
      AllAppliedInv(m, records, w.rows, retry);
      AssetKeeps(m, w.rows, weather(Asset));
    }
  }

  // ---------------------------------------------------------------- the closing validation

  lemma AppliedAsset(m: Manifest, records: Ledger, rows: Ledger, retry: Option<nat>, o: Outcome)
    requires Fits(m, rows, true) && SameAt(records, rows, Asset)
    requires Skips(m, records, Asset, retry) || o.Completed?
    ensures var after := if Skips(m, records, Asset, retry) then rows else AfterChange(m, rows, Asset, o);
      Fits(m, after, false) && Asset in after && after[Asset].state.Applied? && after[Asset].sha == m.sha(Asset)
  {
    var after := if Skips(m, records, Asset, retry) then rows else AfterChange(m, rows, Asset, o);
    TouchedFits(m, rows, Asset, o);
    forall key | key in after ensures RowFits(m, key, after[key], false) {
      assert RowFits(m, key, after[key], true);
    }
  }

  /** Nothing is dirty any more, and nothing active is missing. */
  lemma AllAppliedComplete(m: Manifest, records: Ledger, rows: Ledger, after: Ledger, retry: Option<nat>)
    requires Midway(m, records, rows, LAST, retry) && RetryMatches(records, retry)
    requires forall v: nat :: SameAt(rows, after, Version(v))
    ensures Ordered(after) && RetryMatches(after, None) && forall v :: Active(v) ==> IsApplied(after, v)
  {
    hide Fits;
    forall v | 1 <= v <= LAST ensures !Dirty(after, v) && (Active(v) ==> IsApplied(after, v)) {
      var w: nat := v;
      SameState(rows, after, w);
      if Superseded(v) && retry != Some(w) { SameState(records, rows, w); }
    }
  }

  /** An accepted call that carries every change through passes the closing validation, which asks
      for a complete ledger without a retry and without an earlier asset: it never fails there. */
  lemma CompletedApplyIsComplete(m: Manifest, records: Ledger, retry: Option<nat>, retryAsset: bool, weather: Weather)
    requires Accepts(m, records, false, retry, retryAsset, true)
    ensures var w := ApplyAll(m, records, retry, weather);
      !w.stopped ==> Accepts(m, w.rows, true, None, false, false)
  {
    hide Midway, Skips, AfterChange, Walk, Fits, Ordered;
    WalkMidway(m, records, LAST, retry, retryAsset, weather);
    var w, o := Walk(m, records, LAST, retry, weather), weather(Asset);
    var all := ApplyAll(m, records, retry, weather);
    if !all.stopped {
      MidwayFits(m, records, w.rows, LAST, retry);
      AppliedAsset(m, records, w.rows, retry, o);
      forall v: nat ensures SameAt(w.rows, all.rows, Version(v)) { TouchedAt(m, w.rows, Asset, o, Version(v)); }
      AllAppliedComplete(m, records, w.rows, all.rows, retry);
    }
  }

  lemma MidwayFits(m: Manifest, records: Ledger, rows: Ledger, n: nat, retry: Option<nat>)
    requires Midway(m, records, rows, n, retry)
    ensures Fits(m, rows, true) && SameAt(records, rows, Asset)
  {
  }

  // ---------------------------------------------------------------- any sequence of calls

  datatype Call = Call(retry: Option<nat>, retryAsset: bool, weather: Weather)

  ghost function After(m: Manifest, rows: Ledger, c: Call): Ledger {
    if Accepts(m, rows, false, c.retry, c.retryAsset, true) then ApplyAll(m, rows, c.retry, c.weather).rows else rows
  }

  ghost function Executed(m: Manifest, rows: Ledger, c: Call): seq<Key> {
    if Accepts(m, rows, false, c.retry, c.retryAsset, true) then ApplyAll(m, rows, c.retry, c.weather).executed else []
  }

  ghost function History(m: Manifest, rows: Ledger, calls: seq<Call>): Ledger {
    if calls == [] then rows else After(m, History(m, rows, calls[..|calls| - 1]), calls[|calls| - 1])
  }

  /** Every ledger that can be reached is a prefix of the manifest with at most one dirty version,
      and is accepted again with the retry arguments that name what is dirty. */
  lemma {:induction false} ReachableLedgersStayRetryable(m: Manifest, rows: Ledger, calls: seq<Call>)
    requires Inv(m, rows)
    ensures var reached := History(m, rows, calls);
      && Inv(m, reached)
      && Accepts(m, reached, false, RetryFor(reached), Asset in reached && !reached[Asset].state.Applied?, true)
  {
    hide Inv, Accepts, ApplyAll;
    if calls != [] {
      var before, c := History(m, rows, calls[..|calls| - 1]), calls[|calls| - 1];
      ReachableLedgersStayRetryable(m, rows, calls[..|calls| - 1]);
      if Accepts(m, before, false, c.retry, c.retryAsset, true) {
        ApplyKeepsInv(m, before, c.retry, c.retryAsset, c.weather);
      }
    }
    AlwaysRetryable(m, History(m, rows, calls));
  }

  /** In particular every ledger that was started empty. */
  lemma NewLedgersStayRetryable(m: Manifest, calls: seq<Call>)
    ensures var reached := History(m, map[], calls);
      && Inv(m, reached)
      && Accepts(m, reached, false, RetryFor(reached), Asset in reached && !reached[Asset].state.Applied?, true)
  {
    NewLedgerInv(m);
    ReachableLedgersStayRetryable(m, map[], calls);
  }

  // ---------------------------------------------------------------- executed once

  /** Why a change may be executed: it never was claimed, it is dirty and named, or it is the
      convergence migration while a superseded version is retried. */
  predicate Due(m: Manifest, records: Ledger, key: Key, retry: Option<nat>) {
    || key !in records
    || !records[key].state.Applied? || records[key].sha != m.sha(key)
    || (key == Version(CONVERGENCE) && retry.Some? && Superseded(retry.value))
  }

  lemma {:induction false} WalkExecutesDue(m: Manifest, records: Ledger, n: nat, retry: Option<nat>, weather: Weather,
                                           key: Key)
    ensures key in Walk(m, records, n, retry, weather).executed ==>
      Due(m, records, key, retry) && key in Walk(m, records, n, retry, weather).rows
    ensures key in records ==> key in Walk(m, records, n, retry, weather).rows
  {
    hide AfterChange;
    if n > 0 {
      WalkExecutesDue(m, records, n - 1, retry, weather, key);
      StepExecutesDue(m, Walk(m, records, n - 1, retry, weather), records, Version(n), retry, weather, key);
    }
  }

  lemma StepExecutesDue(m: Manifest, w: Walked, records: Ledger, change: Key, retry: Option<nat>, weather: Weather,
                        key: Key)
    requires key in w.executed ==> Due(m, records, key, retry) && key in w.rows
    requires key in records ==> key in w.rows
    ensures var next := StepChange(m, w, records, change, retry, weather);
      && (key in next.executed ==> Due(m, records, key, retry) && key in next.rows)
      && (key in records ==> key in next.rows)
  {
  }

  lemma CallExecutesDue(m: Manifest, rows: Ledger, c: Call, key: Key)
    ensures key in Executed(m, rows, c) ==> Due(m, rows, key, c.retry) && key in After(m, rows, c)
    ensures key in rows ==> key in After(m, rows, c)
  {
    hide Accepts, Due;
    WalkExecutesDue(m, rows, LAST, c.retry, c.weather, key);
    StepExecutesDue(m, Walk(m, rows, LAST, c.retry, c.weather), rows, Asset, c.retry, c.weather, key);
  }

  lemma {:induction false} ClaimsStay(m: Manifest, rows: Ledger, calls: seq<Call>, i: nat, key: Key)
    requires i <= |calls| && key in History(m, rows, calls[..i])
    ensures key in History(m, rows, calls)
    decreases |calls| - i
  {
    hide After, Executed;
    if i < |calls| {
      assert calls[..i + 1][..i] == calls[..i];
      CallExecutesDue(m, History(m, rows, calls[..i]), calls[i], key);
      ClaimsStay(m, rows, calls, i + 1, key);
    } else {
      assert calls[..i] == calls;
    }
  }

  /** A migration whose execution began in call `i` is executed again in a later call `j` only if it
      is dirty then and that call names it, or if it is the convergence migration while a superseded
      version is retried. */
  lemma ExecutedAgainOnlyOnRetry(m: Manifest, rows: Ledger, calls: seq<Call>, i: nat, j: nat, v: nat)
    requires Inv(m, rows) && i < j < |calls| && 1 <= v <= LAST
    requires Version(v) in Executed(m, History(m, rows, calls[..i]), calls[i])
    requires Version(v) in Executed(m, History(m, rows, calls[..j]), calls[j])
    ensures var retry := calls[j].retry;
      || (retry == Some(v) && Dirty(History(m, rows, calls[..j]), v))
      || (v == CONVERGENCE && retry.Some? && Superseded(retry.value))
  {
    hide After, Ordered;
    var first, second := History(m, rows, calls[..i]), History(m, rows, calls[..j]);
    CallExecutesDue(m, first, calls[i], Version(v));
    assert calls[..j][..i + 1][..i] == calls[..i] && calls[..j][..i + 1] == calls[..i + 1];
    assert calls[..i + 1][..i] == calls[..i];
    ClaimsStay(m, rows, calls[..j], i + 1, Version(v));
    CallExecutesDue(m, second, calls[j], Version(v));
    ReachableLedgersStayRetryable(m, rows, calls[..j]);
    assert RowFits(m, Version(v), second[Version(v)], true);
  }

  // ---------------------------------------------------------------- the branch that is kept out

  ghost predicate Retryable(m: Manifest, rows: Ledger) {
    exists retry, retryAsset :: Accepts(m, rows, false, retry, retryAsset, true)
  }

  /** Everything completes except one change, which fails. */
  function OnlyFails(key: Key): Weather { (k: Key) => if k == key then ExecutionFailed(true) else Completed }

  lemma {:induction false} NotStoppedBefore(m: Manifest, rows: Ledger, n: nat, v: nat, retry: Option<nat>)
    requires n < v
    ensures !Walk(m, rows, n, retry, OnlyFails(Version(v))).stopped
  {
    hide Skips, AfterChange;
    if n > 0 { NotStoppedBefore(m, rows, n - 1, v, retry); }
  }

  /** A change that is not passed over fails and stays dirty; rows that were present stay present. */
  lemma FailureStays(m: Manifest, rows: Ledger, v: nat, retry: Option<nat>)
    requires 1 <= v <= LAST && !Skips(m, rows, Version(v), retry)
    ensures var after := ApplyAll(m, rows, retry, OnlyFails(Version(v))).rows;
      Dirty(after, v) && forall key :: key in rows ==> key in after
  {
    hide Skips, AfterChange;
    var weather := OnlyFails(Version(v));
    NotStoppedBefore(m, rows, v - 1, v, retry);
    FailedIsDirty(m, Walk(m, rows, v - 1, retry, weather).rows, v);
    assert Walk(m, rows, v, retry, weather).stopped;
    StoppedStays(m, rows, v, LAST, retry, weather);
    forall key | key in rows ensures key in Walk(m, rows, v, retry, weather).rows {
      WalkExecutesDue(m, rows, v, retry, weather, key);
    }
  }

  lemma FailedIsDirty(m: Manifest, rows: Ledger, v: nat)
    ensures Dirty(AfterChange(m, rows, Version(v), ExecutionFailed(true)), v)
  {
  }

  lemma {:induction false} UntouchedAfter(m: Manifest, rows: Ledger, n: nat, retry: Option<nat>, weather: Weather,
                                          key: Key)
    requires key.Version? && key.number > n
    ensures SameAt(rows, Walk(m, rows, n, retry, weather).rows, key)
  {
    hide Skips, AfterChange;
    if n > 0 {
      UntouchedAfter(m, rows, n - 1, retry, weather, key);
      TouchedAt(m, Walk(m, rows, n - 1, retry, weather).rows, Version(n), weather(Version(n)), key);
    }
  }

  /** A migration later than the convergence migration is present: its forced re-claim can leave a
      dirty row ahead of an applied one. */
  lemma ForcedReclaimBricks(m: Manifest, rows: Ledger, d: nat, later: nat)
    requires Superseded(d) && Active(later) && later > CONVERGENCE && Present(rows, later)
    ensures !Retryable(m, ApplyAll(m, rows, Some(d), OnlyFails(Version(CONVERGENCE))).rows)
  {
    hide ApplyAll;
    FailureStays(m, rows, CONVERGENCE, Some(d));
    assert Active(CONVERGENCE) && Active(later);
  }

  /** A migration before the superseded one was never claimed: its failure leaves two dirty rows. */
  lemma EarlierGapBricks(m: Manifest, rows: Ledger, d: nat, earlier: nat)
    requires Superseded(d) && Dirty(rows, d) && Active(earlier) && earlier < d && !Present(rows, earlier)
    ensures !Retryable(m, ApplyAll(m, rows, Some(d), OnlyFails(Version(earlier))).rows)
  {
    hide Skips, AfterChange;
    var weather := OnlyFails(Version(earlier));
    AbsentIsDue(m, rows, earlier, Some(d));
    FailureStays(m, rows, earlier, Some(d));
    UntouchedAfter(m, rows, earlier, Some(d), weather, Version(d));
    NotStoppedBefore(m, rows, earlier - 1, earlier, Some(d));
    StoppedStays(m, rows, earlier, LAST, Some(d), weather);
    var after := ApplyAll(m, rows, Some(d), weather).rows;
    assert Dirty(after, d) && Dirty(after, earlier);
  }

  lemma AbsentIsDue(m: Manifest, rows: Ledger, v: nat, retry: Option<nat>)
    requires Active(v) && !Present(rows, v)
    ensures !Skips(m, rows, Version(v), retry)
  {
  }

  /** Retrying a superseded version is harmless, whatever happens, exactly when everything before it
      is applied and nothing after the convergence migration is present. */
  lemma SupersededRetryIsSafeIff(m: Manifest, rows: Ledger, d: nat, retryAsset: bool)
    requires Superseded(d) && Accepts(m, rows, false, Some(d), retryAsset, true)
    ensures SupersededSafe(rows) <==> forall weather: Weather :: Retryable(m, ApplyAll(m, rows, Some(d), weather).rows)
  {
    hide ApplyAll, Fits;
    if SupersededSafe(rows) {
      forall weather: Weather ensures Retryable(m, ApplyAll(m, rows, Some(d), weather).rows) {
        ApplyKeepsInv(m, rows, Some(d), retryAsset, weather);
        AlwaysRetryable(m, ApplyAll(m, rows, Some(d), weather).rows);
      }
    } else {
      if u :| Active(u) && u < d && !IsApplied(rows, u) {
        var w: nat := u;
        assert !Dirty(rows, u);
        EarlierGapBricks(m, rows, d, w);
      } else {
        var later :| Active(later) && later > CONVERGENCE && Present(rows, later);
        var w: nat := later;
        ForcedReclaimBricks(m, rows, d, w);
      }
    }
  }
}
