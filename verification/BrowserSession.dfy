/**
The browser session that all workers of all crawler processes share: one file lock across
processes, one session state per process with a back-off after failed refreshes, and a set of
versions the site has rejected.  Each step below is one critical section or one file operation.
*/
module BrowserSession {
  import opened Wrappers

  const COOKIE_TTL := 1500.0
  const REFRESH_RETRY_BACKOFF := 60.0
  const REFRESH_BACKOFF_MAX := 1200.0

  function Pow2(n: nat): (p: nat)
    ensures p >= 1
  {
    if n == 0 then 1 else 2 * Pow2(n - 1)
  }

  /** The pause after the n-th failure in a row. */
  function Backoff(n: nat): (delay: real)
    requires n > 0
    ensures REFRESH_RETRY_BACKOFF <= delay <= REFRESH_BACKOFF_MAX
  {
    var grown := REFRESH_RETRY_BACKOFF * Pow2(n - 1) as real;
    if grown < REFRESH_BACKOFF_MAX then grown else REFRESH_BACKOFF_MAX
  }

  lemma BackoffGrows(n: nat)
    requires n > 0
    ensures Backoff(n) <= Backoff(n + 1) <= 2.0 * Backoff(n)
    ensures Backoff(n) < REFRESH_BACKOFF_MAX ==> n <= 5
  {
    assert Pow2(n) == 2 * Pow2(n - 1);
    if n > 5 { PowAtLeast(n - 1); }
  }

  lemma {:induction false} PowAtLeast(n: nat)
    requires n >= 5
    ensures Pow2(n) >= 32
  {
    if n == 5 { assert Pow2(5) == 2 * Pow2(4) && Pow2(4) == 2 * Pow2(3) && Pow2(3) == 8; } else { PowAtLeast(n - 1); }
  }

  // ---------------------------------------------------------------- one process

  /** A session as stored on disk, and as read from there with its age. */
  datatype Stored = Stored(version: string, savedAt: real)

  datatype Candidate = Candidate(version: string, age: real)

  /** The state of one process.  `outcomes` is the history of its marked refreshes. */
  datatype Shared = Shared(cookies: Option<string>, okAt: real, retryAfter: real, failures: nat, busy: bool,
                           rejected: set<string>, outcomes: seq<bool>)

  const NEW_PROCESS := Shared(None, 0.0, 0.0, 0, false, {}, [])

  predicate IsCurrent(s: Shared, now: real) { s.cookies.Some? && now - s.okAt < COOKIE_TTL }

  function Readable(disk: Option<Stored>, s: Shared, now: real): Option<Candidate> {
    if disk.Some? && 0.0 <= now - disk.value.savedAt < COOKIE_TTL && disk.value.version !in s.rejected
    then Some(Candidate(disk.value.version, now - disk.value.savedAt)) else None
  }

  function Seeded(s: Shared, c: Option<Candidate>, now: real): Shared {
    if c.None? || IsCurrent(s, now) then s else s.(cookies := Some(c.value.version), okAt := now - c.value.age)
  }

  datatype Decision = Reuse(version: string) | BackOff | Lead

  function Decide(s: Shared, now: real): Decision
    requires !s.busy
  {
    if IsCurrent(s, now) then Reuse(s.cookies.value) else if now < s.retryAfter then BackOff else Lead
  }

  function Published(s: Shared, version: string, now: real): Shared {
    Shared(Some(version), now, 0.0, 0, false, {}, s.outcomes + [true])
  }

  function MarkedFailed(s: Shared, now: real): Shared {
    s.(failures := s.failures + 1, retryAfter := now + Backoff(s.failures + 1), busy := false,
       outcomes := s.outcomes + [false])
  }

  function Rejecting(s: Shared, version: string): Shared {
    var kept := if s.cookies == Some(version) then s.(cookies := None, okAt := 0.0) else s;
    kept.(rejected := s.rejected + {version})
  }

  /** The module-level state of `cloak`, updated in place under its condition variable. */
  class SessionState {
    var cookies: Option<string>
    var okAt: real
    var retryAfter: real
    var failures: nat
    var busy: bool
    var rejected: set<string>
    ghost var outcomes: seq<bool>

    constructor ()
      ensures State() == NEW_PROCESS
    {
      cookies, okAt, retryAfter, failures, busy, rejected, outcomes := None, 0.0, 0.0, 0, false, {}, [];
    }

    ghost function State(): Shared
      reads this
    {
      Shared(cookies, okAt, retryAfter, failures, busy, rejected, outcomes)
    }

    method Seed(c: Option<Candidate>, now: real)
      modifies this
      ensures State() == Seeded(old(State()), c, now)
    {
      if c.None? { return; }
      if cookies.Some? && now - okAt < COOKIE_TTL { return; }
      cookies, okAt := Some(c.value.version), now - c.value.age;
    }

    method Enter(now: real) returns (d: Decision)
      requires !busy
      modifies this
      ensures d == Decide(old(State()), now)
      ensures State() == old(State()).(busy := d.Lead?)
    {
      if cookies.Some? && now - okAt < COOKIE_TTL { return Reuse(cookies.value); }
      if now < retryAfter { return BackOff; }
      busy := true;
      return Lead;
    }

    method Publish(version: string, now: real)
      modifies this
      ensures State() == Published(old(State()), version, now)
    {
      cookies, okAt, retryAfter, failures := Some(version), now, 0.0, 0;
      rejected := {};
      busy := false;
      outcomes := outcomes + [true];
    }

    method MarkFailed(now: real)
      modifies this
      ensures State() == MarkedFailed(old(State()), now)
    {
      failures := failures + 1;
      var doubled: nat := 1;
      for i := 1 to failures
        invariant doubled == Pow2(i - 1)
      {
        doubled := 2 * doubled;
      }
      var delay := REFRESH_RETRY_BACKOFF * doubled as real;
      if delay > REFRESH_BACKOFF_MAX { delay := REFRESH_BACKOFF_MAX; }
      retryAfter := now + delay;
      busy := false;
      outcomes := outcomes + [false];
    }

    method Reject(version: string)
      modifies this
      ensures State() == Rejecting(old(State()), version)
    {
      rejected := rejected + {version};
      if cookies == Some(version) { cookies, okAt := None, 0.0; }
    }
  }

  // ---------------------------------------------------------------- all processes

  datatype Worker = Worker(process: nat, thread: nat)

  /** Where a worker stands: reading the stored session without the file lock, or with it, deciding,
      leading a refresh, having stored its result, or about to delete a rejected session file. */
  datatype Phase =
    | Idle
    | Peeking(c: Option<Candidate>)
    | Seeding(c: Option<Candidate>)
    | Deciding
    | Leading
    | Storing(version: string)
    | Sweeping(version: string)

  datatype System = System(now: real, disk: Option<Stored>, holder: Option<Worker>, shared: map<nat, Shared>,
                           phase: map<Worker, Phase>)

  function At(s: System, w: Worker): Phase { if w in s.phase then s.phase[w] else Idle }

  function Of(s: System, p: nat): Shared { if p in s.shared then s.shared[p] else NEW_PROCESS }

  datatype Event =
    | Tick(to: real)
    | Peek(w: Worker)
    | PeekInstall(w: Worker)
    | TakeLock(w: Worker)
    | LockedInstall(w: Worker)
    | Enter(w: Worker)
    | Store(w: Worker, version: string)
    | Publish(w: Worker)
    | Fail(w: Worker)
    | Abort(w: Worker)
    | Reject(w: Worker, version: string)
    | Sweep(w: Worker)
    | Skip(w: Worker)
    | Crash(p: nat)

  function Moved(s: System, w: Worker, ph: Phase): System { s.(phase := s.phase[w := ph]) }

  function Became(s: System, p: nat, sh: Shared): System { s.(shared := s.shared[p := sh]) }

  function Left(s: System, w: Worker): System { Moved(s, w, Idle).(holder := None) }

  predicate Enabled(s: System, e: Event) {
    match e
    case Tick(to) => s.now <= to
    case Peek(w) => At(s, w).Idle? && Of(s, w.process).cookies.None?
    case PeekInstall(w) => At(s, w).Peeking?
    case TakeLock(w) => At(s, w).Idle? && s.holder.None?
    case LockedInstall(w) => At(s, w).Seeding?
    case Enter(w) => At(s, w).Deciding? && !Of(s, w.process).busy
    case Store(w, _) => At(s, w).Leading?
    case Publish(w) => At(s, w).Storing?
    case Fail(w) => At(s, w).Leading?
    case Abort(w) => At(s, w).Leading? || At(s, w).Storing?
    case Reject(w, _) => At(s, w).Idle?
    case Sweep(w) => At(s, w).Sweeping? && s.holder.None?
    case Skip(w) => At(s, w).Sweeping?
    case Crash(_) => true
  }

  function Next(s: System, e: Event): System
    requires Enabled(s, e)
  {
    match e
    case Tick(to) => s.(now := to)
    case Peek(w) => Moved(s, w, Peeking(Readable(s.disk, Of(s, w.process), s.now)))
    case PeekInstall(w) => Moved(Became(s, w.process, Seeded(Of(s, w.process), At(s, w).c, s.now)), w, Idle)
    case TakeLock(w) => Moved(s, w, Seeding(Readable(s.disk, Of(s, w.process), s.now))).(holder := Some(w))
    case LockedInstall(w) => Moved(Became(s, w.process, Seeded(Of(s, w.process), At(s, w).c, s.now)), w, Deciding)
    case Enter(w) =>
      if Decide(Of(s, w.process), s.now).Lead?
      then Moved(Became(s, w.process, Of(s, w.process).(busy := true)), w, Leading)
      else Left(s, w)
    case Store(w, version) => Moved(s, w, Storing(version)).(disk := Some(Stored(version, s.now)))
    case Publish(w) => Left(Became(s, w.process, Published(Of(s, w.process), At(s, w).version, s.now)), w)
    case Fail(w) => Left(Became(s, w.process, MarkedFailed(Of(s, w.process), s.now)), w)
    case Abort(w) => Left(Became(s, w.process, Of(s, w.process).(busy := false)), w)
    case Reject(w, version) => Moved(Became(s, w.process, Rejecting(Of(s, w.process), version)), w, Sweeping(version))
    case Sweep(w) =>
      Moved(s, w, Idle).(disk := if s.disk.Some? && s.disk.value.version == At(s, w).version then None else s.disk)
    case Skip(w) => Moved(s, w, Idle)
    case Crash(p) =>
      s.(shared := s.shared[p := NEW_PROCESS], phase := map w | w in s.phase && w.process != p :: s.phase[w],
         holder := if s.holder.Some? && s.holder.value.process == p then None else s.holder)
  }

  ghost predicate IsRun(states: seq<System>, events: seq<Event>) {
    && |states| == |events| + 1
    && forall i :: 0 <= i < |events| ==> Enabled(states[i], events[i]) && states[i + 1] == Next(states[i], events[i])
  }

  predicate Start(s: System) { s.holder.None? && s.phase == map[] && s.shared == map[] }

  /** The browser of a refresh is running. */
  predicate Refreshing(ph: Phase) { ph.Leading? || ph.Storing? }

  predicate NeedsLock(ph: Phase) { ph.Seeding? || ph.Deciding? || Refreshing(ph) }

  // ---------------------------------------------------------------- one refresh at a time

  /** A phase that needs the file lock belongs to its holder, and a process is busy only while its
      holder refreshes. */
  ghost predicate Inv(s: System) {
    && (forall w: Worker :: NeedsLock(At(s, w)) ==> s.holder == Some(w))
    && (forall p: nat :: Of(s, p).busy ==>
          s.holder.Some? && s.holder.value.process == p && Refreshing(At(s, s.holder.value)))
  }

  lemma InvStart(s: System)
    requires Start(s)
    ensures Inv(s)
  {
  }

  lemma InvStep(s: System, e: Event)
    requires Inv(s) && Enabled(s, e)
    ensures Inv(Next(s, e))
  {
    var t := Next(s, e);
    forall w: Worker ensures NeedsLock(At(t, w)) ==> t.holder == Some(w) {
      assert NeedsLock(At(s, w)) ==> s.holder == Some(w);
    }
    forall p: nat
      ensures Of(t, p).busy ==> t.holder.Some? && t.holder.value.process == p && Refreshing(At(t, t.holder.value))
    {
      assert Of(s, p).busy ==> s.holder.Some? && s.holder.value.process == p && Refreshing(At(s, s.holder.value));
    }
  }

  lemma {:induction false} InvAlways(states: seq<System>, events: seq<Event>, i: nat)
    requires IsRun(states, events) && Start(states[0]) && i < |states|
    ensures Inv(states[i])
  {
    if i == 0 {
      InvStart(states[0]);
    } else {
      InvAlways(states, events, i - 1);
      InvStep(states[i - 1], events[i - 1]);
    }
  }

  /** Across all processes at most one refresh is in progress, and a worker that holds the file lock
      never finds its process busy: the condition variable has nothing to wait for. */
  lemma OneRefreshAtATime(states: seq<System>, events: seq<Event>, i: nat, a: Worker, b: Worker)
    requires IsRun(states, events) && Start(states[0]) && i < |states|
    ensures Refreshing(At(states[i], a)) && Refreshing(At(states[i], b)) ==> a == b
    ensures At(states[i], a).Deciding? ==> !Of(states[i], a.process).busy
  {
    InvAlways(states, events, i);
  }

  // ---------------------------------------------------------------- back-off

  /** How many marked failures end a history. */
  function Trailing(outcomes: seq<bool>): nat {
    if outcomes == [] || outcomes[|outcomes| - 1] then 0 else Trailing(outcomes[..|outcomes| - 1]) + 1
  }

  lemma TrailingAppend(outcomes: seq<bool>)
    ensures Trailing(outcomes + [true]) == 0 && Trailing(outcomes + [false]) == Trailing(outcomes) + 1
  {
    assert (outcomes + [false])[..|outcomes|] == outcomes;
  }

  lemma FailuresStep(s: System, e: Event, p: nat)
    requires Enabled(s, e) && Of(s, p).failures == Trailing(Of(s, p).outcomes)
    ensures Of(Next(s, e), p).failures == Trailing(Of(Next(s, e), p).outcomes)
  {
    hide Trailing;
    TrailingAppend(Of(s, p).outcomes);
    NoneTrail();
  }

  lemma NoneTrail()
    ensures Trailing([]) == 0
  {
  }

  lemma {:induction false} FailuresAreConsecutive(states: seq<System>, events: seq<Event>, i: nat, p: nat)
    requires IsRun(states, events) && Start(states[0]) && i < |states|
    ensures Of(states[i], p).failures == Trailing(Of(states[i], p).outcomes)
  {
    if i > 0 {
      hide Next;
      FailuresAreConsecutive(states, events, i - 1, p);
      FailuresStep(states[i - 1], events[i - 1], p);
      assert states[i - 1 + 1] == Next(states[i - 1], events[i - 1]);
    }
  }

  /** No refresh of the process can have started before the deadline. */
  ghost predicate Guarded(s: System, p: nat, deadline: real) {
    || s.now >= deadline
    || (Of(s, p).retryAfter >= deadline && forall w: Worker :: w.process == p ==> !Refreshing(At(s, w)))
  }

  predicate StartsRefresh(s: System, e: Event, p: nat) {
    e.Enter? && e.w.process == p && Enabled(s, e) && Refreshing(At(Next(s, e), e.w))
  }

  lemma GuardedStep(s: System, e: Event, p: nat, deadline: real)
    requires Guarded(s, p, deadline) && Enabled(s, e) && e != Crash(p)
    ensures Guarded(Next(s, e), p, deadline)
    ensures StartsRefresh(s, e, p) ==> s.now >= deadline
  {
    var t := Next(s, e);
    if s.now < deadline && t.now < deadline {
      forall w: Worker | w.process == p ensures !Refreshing(At(t, w)) {
        assert !Refreshing(At(s, w));
      }
    }
  }

  lemma {:induction false} GuardedUntil(states: seq<System>, events: seq<Event>, p: nat, deadline: real, i: nat, j: nat)
    requires IsRun(states, events) && i <= j < |states| && Guarded(states[i], p, deadline)
    requires forall k :: i <= k < j ==> events[k] != Crash(p)
    ensures Guarded(states[j], p, deadline)
  {
    if i < j {
      GuardedUntil(states, events, p, deadline, i, j - 1);
      assert Enabled(states[j - 1], events[j - 1]);
      GuardedStep(states[j - 1], events[j - 1], p, deadline);
    }
  }

  /** After the n-th marked failure in a row a process starts no refresh for the back-off of n, as long
      as the process lives. */
  lemma NoRefreshDuringBackoff(states: seq<System>, events: seq<Event>, i: nat, j: nat)
    requires IsRun(states, events) && Start(states[0]) && i < j < |events|
    requires events[i].Fail? && StartsRefresh(states[j], events[j], events[i].w.process)
    requires forall k :: i < k < j ==> events[k] != Crash(events[i].w.process)
    ensures var n := Trailing(Of(states[i + 1], events[i].w.process).outcomes);
      n > 0 && states[j].now >= states[i].now + Backoff(n)
  {
    var w := events[i].w;
    var p := w.process;
    assert Enabled(states[i], events[i]) && states[i + 1] == Next(states[i], events[i]);
    InvAlways(states, events, i);
    FailuresAreConsecutive(states, events, i, p);
    FailuresAreConsecutive(states, events, i + 1, p);
    var deadline := states[i].now + Backoff(Of(states[i + 1], p).failures);
    assert Guarded(states[i + 1], p, deadline) by {
      assert Of(states[i + 1], p).retryAfter == deadline;
      forall x: Worker | x.process == p ensures !Refreshing(At(states[i + 1], x)) {
        assert Refreshing(At(states[i], x)) ==> states[i].holder == Some(x);
        assert At(states[i], w).Leading? && states[i].holder == Some(w);
      }
    }
    GuardedUntil(states, events, p, deadline, i + 1, j);
    GuardedStep(states[j], events[j], p, deadline);
  }

  // ---------------------------------------------------------------- rejected versions

  /** No worker of the process is about to install the version, and the process will not read it again. */
  ghost predicate Barred(s: System, p: nat, version: string) {
    && version in Of(s, p).rejected && Of(s, p).cookies != Some(version) && NotCarried(s, p, version)
  }

  predicate Carries(ph: Phase, version: string) {
    (ph.Peeking? || ph.Seeding?) && ph.c.Some? && ph.c.value.version == version
  }

  ghost predicate NotCarried(s: System, p: nat, version: string) {
    forall w: Worker :: w.process == p ==> !Carries(At(s, w), version)
  }

  lemma BarredStep(s: System, e: Event, p: nat, version: string)
    requires Barred(s, p, version) && Enabled(s, e) && e != Crash(p) && !(e.Publish? && e.w.process == p)
    ensures Barred(Next(s, e), p, version)
  {
    forall w: Worker | w.process == p ensures !Carries(At(Next(s, e), w), version) {
      assert !Carries(At(s, w), version);
    }
    match e
    case PeekInstall(w) => assert w.process == p ==> !Carries(At(s, w), version);
    case LockedInstall(w) => assert w.process == p ==> !Carries(At(s, w), version);
    case _ =>
  }

  /** A version the site rejected is never used again by the process until it has a new session,
      provided no worker was installing it from disk at that moment. */
  lemma {:induction false} RejectedStaysOut(states: seq<System>, events: seq<Event>, i: nat, j: nat)
    requires IsRun(states, events) && i < j < |states| && events[i].Reject?
    requires NotCarried(states[i], events[i].w.process, events[i].version)
    requires forall k :: i < k < j ==> Keeps(events[k], events[i].w.process)
    ensures Barred(states[j], events[i].w.process, events[i].version)
  {
    var p, version := events[i].w.process, events[i].version;
    if j == i + 1 {
      assert Enabled(states[i], events[i]) && states[j] == Next(states[i], events[i]);
      forall w: Worker | w.process == p ensures !Carries(At(states[j], w), version) {
        assert !Carries(At(states[i], w), version);
      }
    } else {
      RejectedStaysOut(states, events, i, j - 1);
      assert Enabled(states[j - 1], events[j - 1]) && Keeps(events[j - 1], p);
      BarredStep(states[j - 1], events[j - 1], p, version);
    }
  }

  predicate Keeps(e: Event, p: nat) { e != Crash(p) && !(e.Publish? && e.w.process == p) }

  // ---------------------------------------------------------------- exactly when a rejection holds

  ghost predicate LeadsTo(s: System, states: seq<System>, events: seq<Event>, p: nat) {
    && IsRun(states, events) && states[0] == s
    && forall k :: 0 <= k < |events| ==> Keeps(events[k], p)
  }

  /** Until it has a new session or dies, the process never uses the version again, whatever happens. */
  ghost predicate StaysOut(s: System, p: nat, version: string) {
    forall states: seq<System>, events: seq<Event> :: LeadsTo(s, states, events, p) ==>
      Of(states[|events|], p).cookies != Some(version)
  }

  lemma {:induction false} BarredStays(states: seq<System>, events: seq<Event>, p: nat, version: string, j: nat)
    requires IsRun(states, events) && j < |states| && Barred(states[0], p, version)
    requires forall k :: 0 <= k < |events| ==> Keeps(events[k], p)
    ensures Barred(states[j], p, version)
  {
    if j > 0 {
      hide Barred, Next;
      BarredStays(states, events, p, version, j - 1);
      assert Enabled(states[j - 1], events[j - 1]) && Keeps(events[j - 1], p);
      BarredStep(states[j - 1], events[j - 1], p, version);
    }
  }

  lemma UsedNow(s: System, p: nat, version: string)
    requires Of(s, p).cookies == Some(version)
    ensures !StaysOut(s, p, version)
  {
    assert LeadsTo(s, [s], [], p);
  }

  lemma UsedLater(s: System, e: Event, p: nat, version: string)
    requires Enabled(s, e) && Keeps(e, p) && !StaysOut(Next(s, e), p, version)
    ensures !StaysOut(s, p, version)
  {
    hide Enabled, Next, Of;
    var states: seq<System>, events: seq<Event> :|
      LeadsTo(Next(s, e), states, events, p) && Of(states[|events|], p).cookies == Some(version);
    var longer, more := [s] + states, [e] + events;
    forall i | 0 <= i < |more|
      ensures Enabled(longer[i], more[i]) && longer[i + 1] == Next(longer[i], more[i]) && Keeps(more[i], p)
    {
      if i > 0 {
        assert Enabled(states[i - 1], events[i - 1]) && states[i - 1 + 1] == Next(states[i - 1], events[i - 1]);
      }
    }
    assert LeadsTo(s, longer, more, p) && longer[|more|] == states[|events|];
  }

  /** A carried version is installed at once when the present session is not current, and after its time
      otherwise. */
  lemma CarriedIsUsed(s: System, x: Worker, version: string)
    requires Carries(At(s, x), version)
    ensures !StaysOut(s, x.process, version)
  {
    hide StaysOut;
    var sh := Of(s, x.process);
    if IsCurrent(sh, s.now) {
      var t := Next(s, Tick(sh.okAt + COOKIE_TTL));
      assert At(t, x) == At(s, x) && !IsCurrent(Of(t, x.process), t.now);
      StaleIsReplaced(t, x, version);
      UsedLater(s, Tick(sh.okAt + COOKIE_TTL), x.process, version);
    } else {
      StaleIsReplaced(s, x, version);
    }
  }

  lemma StaleIsReplaced(s: System, x: Worker, version: string)
    requires Carries(At(s, x), version) && !IsCurrent(Of(s, x.process), s.now)
    ensures !StaysOut(s, x.process, version)
  {
    hide StaysOut;
    var e := if At(s, x).Peeking? then PeekInstall(x) else LockedInstall(x);
    assert Enabled(s, e) && Of(Next(s, e), x.process).cookies == Some(version);
    UsedNow(Next(s, e), x.process, version);
    UsedLater(s, e, x.process, version);
  }

  /** A rejected version stays out of use in every continuation exactly when no worker of the process was
      carrying it from disk at the moment of the rejection. */
  lemma RejectionHoldsIff(s: System, w: Worker, version: string)
    requires Enabled(s, Reject(w, version))
    ensures StaysOut(Next(s, Reject(w, version)), w.process, version) <==> NotCarried(s, w.process, version)
  {
    hide StaysOut;
    var t, p := Next(s, Reject(w, version)), w.process;
    if NotCarried(s, p, version) {
      forall x: Worker | x.process == p ensures !Carries(At(t, x), version) { assert !Carries(At(s, x), version); }
      BarredIsOut(t, p, version);
    } else {
      var x: Worker :| x.process == p && Carries(At(s, x), version);
      assert x != w && At(t, x) == At(s, x);
      CarriedIsUsed(t, x, version);
    }
  }

  lemma BarredIsOut(t: System, p: nat, version: string)
    requires Barred(t, p, version)
    ensures StaysOut(t, p, version)
  {
    hide Next, Enabled;
    forall states: seq<System>, events: seq<Event> | LeadsTo(t, states, events, p)
      ensures Of(states[|events|], p).cookies != Some(version)
    {
      BarredStays(states, events, p, version, |events|);
    }
  }

  /** The shortest way back: a worker that read the stored session just before the rejection installs
      the rejected version just after it. */
  lemma CarriedRejectionComesBack(s: System, w: Worker, x: Worker, version: string)
    requires At(s, w).Peeking? && Carries(At(s, w), version) && At(s, x).Idle? && x.process == w.process
    requires Of(s, x.process).cookies == None || Of(s, x.process).cookies == Some(version)
    ensures Enabled(s, Reject(x, version)) && Enabled(Next(s, Reject(x, version)), PeekInstall(w))
    ensures var t := Next(Next(s, Reject(x, version)), PeekInstall(w));
      version in Of(t, w.process).rejected && Of(t, w.process).cookies == Some(version)
  {
    var r := Next(s, Reject(x, version));
    assert w != x && At(r, w) == At(s, w);
    assert !IsCurrent(Of(r, w.process), r.now);
  }

  /** The back-off lives in memory: a process that dies forgets it, and its successor may start a
      refresh at once. */
  lemma DeathForgetsBackoff(s: System, w: Worker)
    requires Inv(s) && s.holder.None? && s.disk.None? && s.now >= 0.0
    ensures var t := Next(s, Crash(w.process));
      && Enabled(t, TakeLock(w)) && Enabled(Next(t, TakeLock(w)), LockedInstall(w))
      && StartsRefresh(Next(Next(t, TakeLock(w)), LockedInstall(w)), Enter(w), w.process)
  {
    var t := Next(s, Crash(w.process));
    assert At(t, w) == Idle && Of(t, w.process) == NEW_PROCESS;
    var u := Next(t, TakeLock(w));
    assert At(u, w) == Seeding(None);
    var v := Next(u, LockedInstall(w));
    assert At(v, w) == Deciding && Of(v, w.process) == NEW_PROCESS;
  }
}
