/**
What the shared browser session must achieve: pauses of known length, one leader who is marked as such,
a lock that comes back, and a new session that every process uses instead of refreshing once more.
*/
module SessionSharing {
  import opened Wrappers
  import opened BrowserSession

  // ---------------------------------------------------------------- one process

  /** The pauses in seconds: one minute, doubled with every further failure, twenty minutes from the sixth on. */
  lemma BackoffIs(n: nat)
    requires n > 0
    ensures Backoff(n) == (if n == 1 then 60.0 else if n == 2 then 120.0 else if n == 3 then 240.0
                           else if n == 4 then 480.0 else if n == 5 then 960.0 else 1200.0)
  {
    assert Pow2(0) == 1 && Pow2(1) == 2 && Pow2(2) == 4;
    assert Pow2(3) == 2 * Pow2(2) && Pow2(4) == 2 * Pow2(3);
    if n > 5 { PowAtLeast(n - 1); }
  }

  /** A stored session is read exactly when it is less than 25 minutes old and was not rejected here. */
  lemma ReadableIff(disk: Option<Stored>, s: Shared, now: real, c: Candidate)
    ensures Readable(disk, s, now) == Some(c) <==>
      && disk == Some(Stored(c.version, now - c.age)) && c.age >= 0.0 && c.age < 1500.0 && c.version !in s.rejected
  {
    if disk.Some? { assert now - (now - disk.value.savedAt) == disk.value.savedAt; }
  }

  /** A session that is younger than 25 minutes is reused; without one nobody leads before the pause is over. */
  lemma DecisionIff(s: Shared, now: real)
    requires !s.busy
    ensures forall v :: Decide(s, now) == Reuse(v) <==> s.cookies == Some(v) && now < s.okAt + 1500.0
    ensures Decide(s, now) == Lead <==> (s.cookies == None || now >= s.okAt + 1500.0) && now >= s.retryAfter
  {
  }

  /** Seeding replaces nothing but a missing or outdated session, and keeps the age of what it installs. */
  lemma SeedIff(s: Shared, c: Option<Candidate>, now: real)
    ensures var t := Seeded(s, c, now);
      && (if c.Some? && (s.cookies == None || now - s.okAt >= 1500.0)
          then t.cookies == Some(c.value.version) && now - t.okAt == c.value.age
          else t.cookies == s.cookies && t.okAt == s.okAt)
      && t.retryAfter == s.retryAfter && t.failures == s.failures && t.busy == s.busy && t.rejected == s.rejected
  {
  }

  /** A rejected version is remembered and dropped, and nothing else is. */
  lemma RejectIff(s: Shared, version: string)
    ensures var t := Rejecting(s, version);
      && (forall v :: v in t.rejected <==> v in s.rejected || v == version)
      && t.cookies == (if s.cookies == Some(version) then None else s.cookies)
      && t.okAt == (if s.cookies == Some(version) then 0.0 else s.okAt)
      && t.retryAfter == s.retryAfter && t.failures == s.failures && t.busy == s.busy
  {
  }

  /** A published session is new, unhindered by earlier failures and rejections. */
  lemma PublishIff(s: Shared, version: string, now: real)
    ensures var t := Published(s, version, now);
      && t.cookies == Some(version) && t.okAt == now && t.retryAfter <= 0.0 && t.failures == 0
      && !t.busy && t.rejected == {}
  {
  }

  // ---------------------------------------------------------------- leaders

  /** A process whose worker refreshes is busy, so that no other thread of it enters. */
  ghost predicate LeadersAreBusy(s: System) {
    forall w: Worker :: Refreshing(At(s, w)) ==> Of(s, w.process).busy
  }

  lemma LeadersStep(s: System, e: Event)
    requires Inv(s) && LeadersAreBusy(s) && Enabled(s, e)
    ensures LeadersAreBusy(Next(s, e))
  {
    var t := Next(s, e);
    forall w: Worker | Refreshing(At(t, w)) ensures Of(t, w.process).busy {
      LeaderStep(s, e, w);
    }
  }

  lemma LeaderStep(s: System, e: Event, w: Worker)
    requires Inv(s) && Enabled(s, e) && Refreshing(At(Next(s, e), w))
    requires forall x: Worker :: Refreshing(At(s, x)) ==> Of(s, x.process).busy
    ensures Of(Next(s, e), w.process).busy
  {
    assert Refreshing(At(s, w)) ==> s.holder == Some(w) && Of(s, w.process).busy;
    assert forall x: Worker :: NeedsLock(At(s, x)) ==> s.holder == Some(x);
  }

  lemma {:induction false} LeadersAlways(states: seq<System>, events: seq<Event>, i: nat)
    requires IsRun(states, events) && Start(states[0]) && i < |states|
    ensures LeadersAreBusy(states[i])
  {
    if i > 0 {
      hide LeadersAreBusy, Inv, Next, Enabled;
      LeadersAlways(states, events, i - 1);
      InvAlways(states, events, i - 1);
      assert Enabled(states[i - 1], events[i - 1]) && states[i - 1 + 1] == Next(states[i - 1], events[i - 1]);
      LeadersStep(states[i - 1], events[i - 1]);
    } else {
      NobodyLeads(states[0]);
    }
  }

  lemma NobodyLeads(s: System)
    requires Start(s)
    ensures LeadersAreBusy(s)
  {
  }

  /** Over every run: a process is busy exactly while one of its workers refreshes, and that worker holds
      the file lock, so no second one can take it. */
  lemma BusyIffRefreshing(states: seq<System>, events: seq<Event>, i: nat, p: nat)
    requires IsRun(states, events) && Start(states[0]) && i < |states|
    ensures Of(states[i], p).busy <==> exists w: Worker :: w.process == p && Refreshing(At(states[i], w))
    ensures forall w: Worker, x: Worker :: Refreshing(At(states[i], w)) ==>
      states[i].holder == Some(w) && !Enabled(states[i], TakeLock(x)) && !Enabled(states[i], Sweep(x))
  {
    InvAlways(states, events, i);
    LeadersAlways(states, events, i);
    assert forall w: Worker :: NeedsLock(At(states[i], w)) ==> states[i].holder == Some(w);
  }

  // ---------------------------------------------------------------- the lock comes back

  /** However a refresh ends, the worker is idle and the lock is free; so it is when nothing was refreshed. */
  lemma LockComesBack(s: System, e: Event, w: Worker)
    requires Enabled(s, e) && (e == Publish(w) || e == Fail(w) || e == Abort(w) || e == Enter(w))
    ensures var t := Next(s, e);
      || (t.holder == None && At(t, w) == Idle)
      || (e == Enter(w) && At(t, w) == Leading && t.holder == s.holder)
  {
  }

  /** A process that dies leaves no lock and no half-done work behind, and others keep theirs. */
  lemma DeathFreesTheLock(s: System, p: nat)
    requires Inv(s)
    ensures var t := Next(s, Crash(p));
      && (forall w: Worker :: w.process == p ==> At(t, w) == Idle && t.holder != Some(w))
      && (forall w: Worker :: w.process != p ==> At(t, w) == At(s, w) && (t.holder == Some(w) <==> s.holder == Some(w)))
      && t.disk == s.disk
  {
  }

  // ---------------------------------------------------------------- a new session is shared

  /** After a refresh any worker, of this process or another, that comes within 25 minutes and has not seen
      the version rejected leaves with a session, and does not start a browser. */
  lemma NewSessionIsShared(s: System, a: Worker, b: Worker, version: string, later: real)
    requires Inv(s) && At(s, a) == Leading && At(s, b) == Idle && a.process != b.process
    requires version !in Of(s, b.process).rejected && s.now <= later < s.now + 1500.0
    ensures var stored := Next(s, Store(a, version));
      var published := Next(stored, Publish(a));
      && stored.disk == Some(Stored(version, s.now)) && Of(published, a.process).cookies == Some(version)
      && var t := Next(published, Tick(later));
         && Enabled(t, TakeLock(b))
         && var u := Next(Next(t, TakeLock(b)), LockedInstall(b));
            && Enabled(u, Enter(b)) && Decide(Of(u, b.process), u.now).Reuse?
            && At(Next(u, Enter(b)), b) == Idle && Next(u, Enter(b)).holder == None
            && (Of(s, b.process).cookies == None || later - Of(s, b.process).okAt >= 1500.0 ==>
                  Decide(Of(u, b.process), u.now) == Reuse(version))
  {
    assert NeedsLock(At(s, a)) && s.holder == Some(a);
    assert a != b;
    var published := Next(Next(s, Store(a, version)), Publish(a));
    assert Of(published, b.process) == Of(s, b.process) && published.holder == None;
    assert !Of(s, b.process).busy;
    var t := Next(published, Tick(later));
    assert At(t, b) == Idle;
    var x := Next(t, TakeLock(b));
    assert At(x, b) == Seeding(Readable(t.disk, Of(t, b.process), t.now));
    assert Readable(t.disk, Of(t, b.process), t.now) == Some(Candidate(version, later - s.now));
    var u := Next(x, LockedInstall(b));
    assert At(u, b) == Deciding;
  }

  /** Sweeping removes a rejected session from disk and leaves any other one there. */
  lemma SweepRemovesOnlyTheRejected(s: System, w: Worker)
    requires Enabled(s, Sweep(w))
    ensures var t := Next(s, Sweep(w));
      && (s.disk.Some? && s.disk.value.version == At(s, w).version ==> t.disk == None)
      && (s.disk.Some? && s.disk.value.version != At(s, w).version ==> t.disk == s.disk)
      && (s.disk == None ==> t.disk == None) && t.shared == s.shared && At(t, w) == Idle
  {
  }
}
