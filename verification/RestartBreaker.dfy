/**
The supervisor's restart-storm breaker.  Its state outlives the process: it is written to a file
before a child is started, and read back by the next supervisor.  Times are seconds on one axis,
wall and monotonic clock advancing together; writes of the state file succeed.
*/
module RestartBreaker {
  import opened Wrappers

  const CHECK_INTERVAL := 60.0
  const HANG_TIMEOUT := 1200.0
  const RESTART_MAX := 3
  const RESTART_WINDOW := HANG_TIMEOUT * (RESTART_MAX as real) + CHECK_INTERVAL * 2.0
  const COOLDOWN := 1800.0

  // ---------------------------------------------------------------- the state and its file

  /** Request times in the window, and the end of the cooldown; zero when there is none. */
  datatype Memory = Memory(restarts: seq<real>, cooldownUntil: real)

  datatype Saved = Saved(restarts: seq<real>, cooldownUntil: real)

  function Recent(times: seq<real>, now: real): seq<real> {
    if times == [] then [] else
      var n := |times| - 1;
      Recent(times[..n], now) + if now - times[n] < RESTART_WINDOW then [times[n]] else []
  }

  /** What `_persist_restart_state` writes at time `now`. */
  function Save(m: Memory, now: real): Saved {
    Saved(m.restarts, if m.cooldownUntil > now then m.cooldownUntil else 0.0)
  }

  /** What `_load_restart_state` makes of the file at time `now`. */
  function Load(f: Saved, now: real): Memory {
    var expired := 0.0 < f.cooldownUntil <= now;
    var kept := if expired then [] else Recent(f.restarts, now);
    if f.cooldownUntil > now
    then Memory(kept, if f.cooldownUntil - now < COOLDOWN then f.cooldownUntil else now + COOLDOWN)
    else Memory(kept, 0.0)
  }

  function Prune(m: Memory, now: real): Memory {
    if m.cooldownUntil != 0.0 && now >= m.cooldownUntil then Memory([], 0.0)
    else if m.cooldownUntil == 0.0 then Memory(Recent(m.restarts, now), 0.0)
    else m
  }

  datatype Verdict = Refused | Storm | Accepted

  /** `restart`, up to the decision whether a child may be started. */
  function Request(m: Memory, now: real): (Memory, Verdict) {
    var pruned := Prune(m, now);
    if now < pruned.cooldownUntil then (pruned, Refused)
    else
      var counted := pruned.(restarts := pruned.restarts + [now]);
      if |counted.restarts| > RESTART_MAX then (counted.(cooldownUntil := now + COOLDOWN), Storm)
      else (counted, Accepted)
  }

  // ---------------------------------------------------------------- the supervisor

  class StateFile {
    var saved: Saved

    constructor ()
      ensures saved == Saved([], 0.0)
    {
      saved := Saved([], 0.0);
    }
  }

  class Supervisor {
    const file: StateFile
    var restarts: seq<real>
    var cooldownUntil: real
    /** Whether a child process is held, running or waiting to be reaped. */
    var child: bool

    constructor (file: StateFile)
      ensures this.file == file && Model() == Memory([], 0.0) && !child
    {
      this.file := file;
      restarts, cooldownUntil, child := [], 0.0, false;
    }

    function Model(): Memory
      reads this
    {
      Memory(restarts, cooldownUntil)
    }

    method Persist(now: real)
      modifies file
      ensures file.saved == Save(Model(), now)
    {
      file.saved := Saved(restarts, if cooldownUntil > now then cooldownUntil else 0.0);
    }

    method LoadRestartState(now: real, later: real)
      modifies this`restarts, this`cooldownUntil, file
      ensures Model() == Load(old(file.saved), now) && file.saved == Save(Model(), later)
    {
      restarts, cooldownUntil := [], 0.0;
      var state := file.saved;
      if !(0.0 < state.cooldownUntil <= now) {
        for i := 0 to |state.restarts|
          invariant restarts == Recent(state.restarts[..i], now) && cooldownUntil == 0.0
        {
          assert state.restarts[..i + 1][..i] == state.restarts[..i];
          if now - state.restarts[i] < RESTART_WINDOW { restarts := restarts + [state.restarts[i]]; }
        }
        assert state.restarts[..|state.restarts|] == state.restarts;
      }
      if state.cooldownUntil > now {
        var remaining := if state.cooldownUntil - now < COOLDOWN then state.cooldownUntil - now else COOLDOWN;
        cooldownUntil := now + remaining;
      }
      Persist(later);
    }

    method PruneRestartState(now: real, later: real)
      modifies this`restarts, this`cooldownUntil, file
      ensures Model() == Prune(old(Model()), now)
      ensures file.saved == if Model() == old(Model()) then old(file.saved) else Save(Model(), later)
    {
      if cooldownUntil != 0.0 && now >= cooldownUntil {
        cooldownUntil, restarts := 0.0, [];
        Persist(later);
      } else if cooldownUntil == 0.0 {
        var active: seq<real> := [];
        for i := 0 to |restarts|
          invariant restarts == old(restarts) && active == Recent(restarts[..i], now)
        {
          assert restarts[..i + 1][..i] == restarts[..i];
          if now - restarts[i] < RESTART_WINDOW { active := active + [restarts[i]]; }
        }
        assert restarts[..|restarts|] == restarts;
        if active != restarts {
          restarts := active;
          Persist(later);
        }
      }
    }

    /** The outcome of ending the held child, and whether no other crawler is left. */
    method Restart(now: real, later: real, killed: bool, alone: bool) returns (verdict: Verdict, started: bool)
      requires now <= later
      modifies this, file
      ensures (Model(), verdict) == Request(old(Model()), now)
      ensures verdict.Refused? || file.saved == Save(Model(), later)
      ensures verdict.Refused? && Model() == old(Model()) ==> file.saved == old(file.saved)
      ensures started <==> verdict.Accepted? && (killed || !old(child)) && alone
      ensures child <==> started || (old(child) && !killed)
    {
      PruneRestartState(now, later);
      if now < cooldownUntil {
        if killed { child := false; }
        return Refused, false;
      }
      restarts := restarts + [now];
      if |restarts| > RESTART_MAX {
        cooldownUntil := now + COOLDOWN;
        Persist(later);
        if killed { child := false; }
        return Storm, false;
      }
      Persist(later);
      if child && !killed { return Accepted, false; }
      child := false;
      if !alone { return Accepted, false; }
      child := true;
      return Accepted, true;
    }
  }

  // ---------------------------------------------------------------- many lives

  datatype Event = Tick(later: real) | Ask(later: real) | Begin | Die | Revive(later: real)

  /** One supervisor after the other on one state file.  `accepted` lists the restart requests that
      led to a start, `end` is the end of the last cooldown that was entered. */
  datatype Life = Life(memory: Option<Memory>, file: Saved, clock: real, accepted: seq<real>, end: real)

  const BIRTH := Life(None, Saved([], 0.0), 0.0, [], 0.0)

  function AfterPrune(l: Life, m: Memory, later: real): Life {
    l.(memory := Some(m), file := if Some(m) == l.memory then l.file else Save(m, later), clock := later)
  }

  /** What an event that begins at time `now` and saves at time `later` does. */
  function Live(l: Life, now: real, e: Event): Life {
    match e
    case Tick(later) => if l.memory.None? then l.(clock := now) else AfterPrune(l, Prune(l.memory.value, now), later)
    case Ask(later) =>
      if l.memory.None? then l.(clock := now) else
        var (m, verdict) := Request(l.memory.value, now);
        if verdict.Refused? then AfterPrune(l, m, later)
        else Life(Some(m), Save(m, later), later,
                  if verdict.Accepted? then l.accepted + [now] else l.accepted,
                  if verdict.Storm? then now + COOLDOWN else l.end)
    case Begin => l.(clock := now)
    case Die => l.(memory := None, clock := now)
    case Revive(later) =>
      if l.memory.Some? then l.(clock := now) else
        var m := Load(l.file, now);
        l.(memory := Some(m), file := Save(m, later), clock := later)
  }

  predicate Timely(l: Life, now: real, e: Event) {
    l.clock <= now && (e.Tick? || e.Ask? || e.Revive? ==> now <= e.later)
  }

  /** A child is started now: by an accepted request, or because none is held and no cooldown runs. */
  predicate Starts(l: Life, now: real, e: Event) {
    l.memory.Some? &&
    match e
    case Ask(_) => Request(l.memory.value, now).1.Accepted?
    case Begin => now >= l.memory.value.cooldownUntil
    case _ => false
  }

  // ---------------------------------------------------------------- what the window keeps

  lemma {:induction false} RecentCount(times: seq<real>, now: real, x: real)
    ensures multiset(Recent(times, now))[x] == if now - x < RESTART_WINDOW then multiset(times)[x] else 0
  {
    if times != [] {
      var n := |times| - 1;
      assert times == times[..n] + [times[n]];
      RecentCount(times[..n], now, x);
    }
  }

  lemma RecentIncluded(a: seq<real>, b: seq<real>, now: real)
    requires multiset(a) <= multiset(b)
    ensures multiset(Recent(a, now)) <= multiset(Recent(b, now))
  {
    forall x ensures multiset(Recent(a, now))[x] <= multiset(Recent(b, now))[x] {
      RecentCount(a, now, x);
      RecentCount(b, now, x);
    }
  }

  ghost predicate Sorted(times: seq<real>) { forall i, j :: 0 <= i < j < |times| ==> times[i] <= times[j] }

  /** Of times in order, the recent ones are a suffix. */
  lemma {:induction false} RecentIsSuffix(times: seq<real>, now: real) returns (k: nat)
    requires Sorted(times)
    ensures k <= |times| && Recent(times, now) == times[k..]
    ensures forall j :: 0 <= j < k ==> now - times[j] >= RESTART_WINDOW
  {
    if times == [] {
      k := 0;
    } else {
      var n := |times| - 1;
      k := RecentIsSuffix(times[..n], now);
      if now - times[n] < RESTART_WINDOW {
        assert times[k..] == times[..n][k..] + [times[n]];
      } else {
        RecentOfOld(times[..n], now);
        assert Recent(times[..n], now) == [];
        k := |times|;
        assert times[k..] == [];
      }
    }
  }

  lemma {:induction false} RecentOfOld(times: seq<real>, now: real)
    requires forall j :: 0 <= j < |times| ==> now - times[j] >= RESTART_WINDOW
    ensures Recent(times, now) == []
  {
    if times != [] { RecentOfOld(times[..|times| - 1], now); }
  }

  // ---------------------------------------------------------------- the invariant

  /** Between accepted request `m` and the next one, or now, a whole cooldown fits. */
  predicate Gap(accepted: seq<real>, m: int, now: real)
    requires 0 <= m < |accepted|
  {
    (if m + 1 < |accepted| then accepted[m + 1] else now) - accepted[m] >= COOLDOWN
  }

  /** Request `j` no longer counts: it is out of the window, or a cooldown followed it. */
  ghost predicate Spent(accepted: seq<real>, j: int, now: real)
    requires 0 <= j < |accepted|
  {
    now - accepted[j] >= RESTART_WINDOW || exists m :: j <= m < |accepted| && Gap(accepted, m, now)
  }

  /** Every accepted request from `i` on is remembered, every earlier one is spent. */
  ghost predicate Backed(accepted: seq<real>, restarts: seq<real>, i: nat, now: real) {
    && i <= |accepted| && multiset(accepted[i..]) <= multiset(restarts)
    && forall j :: 0 <= j < i ==> Spent(accepted, j, now)
  }

  ghost predicate Remembers(l: Life, restarts: seq<real>, cooldownUntil: real) {
    && (exists i :: Backed(l.accepted, restarts, i, l.clock))
    && (cooldownUntil != 0.0 ==>
          cooldownUntil == l.end && (l.accepted == [] || l.accepted[|l.accepted| - 1] + COOLDOWN <= l.end))
    && (l.clock < l.end ==> cooldownUntil == l.end)
  }

  /** Four accepted requests within the window have a whole cooldown between two of them. */
  ghost predicate Spread(accepted: seq<real>) {
    forall j :: 0 <= j < |accepted| ==> FourSpread(accepted, j)
  }

  ghost predicate FourSpread(accepted: seq<real>, j: int)
    requires 0 <= j < |accepted|
  {
    j + 3 < |accepted| && accepted[j + 3] - accepted[j] < RESTART_WINDOW ==> HasGap(accepted, j, j + 3)
  }

  /** Somewhere from request `from` to request `to` a whole cooldown fits between two neighbours. */
  ghost predicate HasGap(accepted: seq<real>, from: int, to: int)
    requires 0 <= from <= to < |accepted|
  {
    exists m :: from <= m < to && Gap(accepted, m, 0.0)
  }

  ghost predicate Inv(l: Life) {
    && 0.0 <= l.clock && 0.0 <= l.end && l.end <= l.clock + COOLDOWN
    && Sorted(l.accepted) && (forall a :: a in l.accepted ==> a <= l.clock) && Spread(l.accepted)
    && (l.memory.Some? ==> Remembers(l, l.memory.value.restarts, l.memory.value.cooldownUntil))
    && Remembers(l, l.file.restarts, l.file.cooldownUntil)
  }

  lemma SpentStays(accepted: seq<real>, j: int, now: real, later: real)
    requires 0 <= j < |accepted| && Spent(accepted, j, now) && now <= later
    ensures Spent(accepted, j, later)
  {
    if !(now - accepted[j] >= RESTART_WINDOW) {
      var m :| j <= m < |accepted| && Gap(accepted, m, now);
      assert Gap(accepted, m, later);
    }
  }

  lemma BackedStays(accepted: seq<real>, restarts: seq<real>, i: nat, now: real, later: real)
    requires Backed(accepted, restarts, i, now) && now <= later
    ensures Backed(accepted, restarts, i, later)
  {
    hide Spent;
    forall j | 0 <= j < i ensures Spent(accepted, j, later) { SpentStays(accepted, j, now, later); }
  }

  /** Dropping what left the window loses nothing that counts. */
  lemma BackedByRecent(accepted: seq<real>, restarts: seq<real>, i: nat, now: real) returns (k: nat)
    requires Backed(accepted, restarts, i, now) && Sorted(accepted)
    ensures Backed(accepted, Recent(restarts, now), k, now)
  {
    var tail := accepted[i..];
    assert Sorted(tail);
    var n := RecentIsSuffix(tail, now);
    k := i + n;
    assert accepted[k..] == tail[n..];
    RecentIncluded(tail, restarts, now);
    forall j | 0 <= j < k ensures Spent(accepted, j, now) {
      if j >= i { assert tail[j - i] == accepted[j]; }
    }
  }

  /** Once a cooldown is over, no earlier request counts. */
  lemma BackedAfterCooldown(accepted: seq<real>, end: real, now: real)
    requires (accepted == [] || accepted[|accepted| - 1] + COOLDOWN <= end) && end <= now
    ensures Backed(accepted, [], |accepted|, now)
  {
    var n := |accepted| - 1;
    assert accepted[|accepted|..] == [];
    if accepted != [] { assert Gap(accepted, n, now); }
  }

  lemma RemembersLater(l: Life, restarts: seq<real>, cooldownUntil: real, later: real)
    requires Remembers(l, restarts, cooldownUntil) && l.clock <= later
    ensures Remembers(l.(clock := later), restarts, cooldownUntil)
  {
    hide Backed;
    var i :| Backed(l.accepted, restarts, i, l.clock);
    BackedStays(l.accepted, restarts, i, l.clock, later);
  }

  lemma PruneRemembers(l: Life, m: Memory)
    requires Sorted(l.accepted) && Remembers(l, m.restarts, m.cooldownUntil)
    ensures Remembers(l, Prune(m, l.clock).restarts, Prune(m, l.clock).cooldownUntil)
  {
    hide Backed;
    var i :| Backed(l.accepted, m.restarts, i, l.clock);
    var k := BackedByRecent(l.accepted, m.restarts, i, l.clock);
    if m.cooldownUntil != 0.0 && l.clock >= m.cooldownUntil { BackedAfterCooldown(l.accepted, l.end, l.clock); }
  }

  lemma SaveRemembers(l: Life, m: Memory, later: real)
    requires Remembers(l, m.restarts, m.cooldownUntil) && l.clock <= later
    ensures Remembers(l.(clock := later), Save(m, later).restarts, Save(m, later).cooldownUntil)
  {
    RemembersLater(l, m.restarts, m.cooldownUntil, later);
  }

  lemma LoadRemembers(l: Life)
    requires Sorted(l.accepted) && Remembers(l, l.file.restarts, l.file.cooldownUntil)
    requires 0.0 <= l.clock && 0.0 <= l.end <= l.clock + COOLDOWN
    ensures Remembers(l, Load(l.file, l.clock).restarts, Load(l.file, l.clock).cooldownUntil)
  {
    hide Backed;
    var i :| Backed(l.accepted, l.file.restarts, i, l.clock);
    var k := BackedByRecent(l.accepted, l.file.restarts, i, l.clock);
    if 0.0 < l.file.cooldownUntil <= l.clock { BackedAfterCooldown(l.accepted, l.end, l.clock); }
  }

  // ---------------------------------------------------------------- accepting one more request

  lemma AcceptedKeepsSpread(accepted: seq<real>, restarts: seq<real>, i: nat, now: real)
    requires Spread(accepted) && Backed(accepted, restarts, i, now) && |restarts| < RESTART_MAX
    ensures Spread(accepted + [now])
  {
    var next := accepted + [now];
    assert |multiset(accepted[i..])| <= |multiset(restarts)| by {
      SmallerMultiset(multiset(accepted[i..]), multiset(restarts));
    }
    forall j | 0 <= j < |next| ensures FourSpread(next, j) {
      if j + 3 < |accepted| {
        assert FourSpread(accepted, j);
        if HasGap(accepted, j, j + 3) {
          var m :| j <= m < j + 3 && Gap(accepted, m, 0.0);
          assert Gap(next, m, 0.0);
        }
      } else if j + 3 == |accepted| && now - next[j] < RESTART_WINDOW {
        assert Spent(accepted, j, now);
        var m :| j <= m < |accepted| && Gap(accepted, m, now);
        assert Gap(next, m, 0.0);
      }
    }
  }

  lemma SmallerMultiset(a: multiset<real>, b: multiset<real>)
    requires a <= b
    ensures |a| <= |b|
  {
    assert b == a + (b - a);
  }

  lemma AcceptedKeepsBacked(accepted: seq<real>, restarts: seq<real>, i: nat, now: real)
    requires Backed(accepted, restarts, i, now)
    ensures Backed(accepted + [now], restarts + [now], i, now)
  {
    var next := accepted + [now];
    assert next[i..] == accepted[i..] + [now];
    forall j | 0 <= j < i ensures Spent(next, j, now) {
      assert Spent(accepted, j, now);
      if now - accepted[j] < RESTART_WINDOW {
        var m :| j <= m < |accepted| && Gap(accepted, m, now);
        assert Gap(next, m, now);
      }
    }
  }

  lemma ClockKeeps(l: Life, now: real)
    requires Inv(l) && l.clock <= now
    ensures Inv(l.(clock := now))
  {
    hide Remembers, Spread, Sorted;
    RemembersLater(l, l.file.restarts, l.file.cooldownUntil, now);
    if l.memory.Some? { RemembersLater(l, l.memory.value.restarts, l.memory.value.cooldownUntil, now); }
  }

  /** Replaces memory and file by a state and its saved form. */
  lemma SavedKeeps(l: Life, m: Memory, later: real)
    requires Inv(l) && Remembers(l, m.restarts, m.cooldownUntil) && l.clock <= later
    ensures Inv(l.(memory := Some(m), file := Save(m, later), clock := later))
  {
    hide Remembers, Spread, Sorted, Save;
    RemembersLater(l, m.restarts, m.cooldownUntil, later);
    SaveRemembers(l, m, later);
    var next := l.(clock := later);
    SameRemembers(next, l.(memory := Some(m), file := Save(m, later), clock := later), m.restarts, m.cooldownUntil);
    SameRemembers(next, l.(memory := Some(m), file := Save(m, later), clock := later), Save(m, later).restarts,
                  Save(m, later).cooldownUntil);
  }

  lemma SameRemembers(l: Life, k: Life, restarts: seq<real>, cooldownUntil: real)
    requires l.accepted == k.accepted && l.end == k.end && l.clock == k.clock
    ensures Remembers(l, restarts, cooldownUntil) <==> Remembers(k, restarts, cooldownUntil)
  {
  }

  lemma PrunedKeeps(l: Life, later: real)
    requires Inv(l) && l.memory.Some? && l.clock <= later
    ensures Inv(AfterPrune(l, Prune(l.memory.value, l.clock), later))
  {
    hide Remembers, Spread, Sorted, Save, Prune;
    PruneRemembers(l, l.memory.value);
    SavedKeeps(l, Prune(l.memory.value, l.clock), later);
    ClockKeeps(l, later);
  }

  lemma SortedAppend(times: seq<real>, now: real)
    requires Sorted(times) && forall t :: t in times ==> t <= now
    ensures Sorted(times + [now]) && forall t :: t in times + [now] ==> t <= now
  {
    forall i | 0 <= i < |times| ensures times[i] <= now { assert times[i] in times; }
  }

  lemma AcceptKeeps(l: Life, restarts: seq<real>, later: real)
    requires Inv(l) && Remembers(l, restarts, 0.0) && |restarts| < RESTART_MAX && l.clock <= later
    ensures var m := Memory(restarts + [l.clock], 0.0);
      Inv(Life(Some(m), Save(m, later), later, l.accepted + [l.clock], l.end))
  {
    hide Backed, Spread, Sorted;
    var now := l.clock;
    var i :| Backed(l.accepted, restarts, i, now);
    AcceptedKeepsSpread(l.accepted, restarts, i, now);
    AcceptedKeepsBacked(l.accepted, restarts, i, now);
    SortedAppend(l.accepted, now);
    var m := Memory(restarts + [now], 0.0);
    var next := Life(Some(m), Save(m, now), now, l.accepted + [now], l.end);
    assert Remembers(next, m.restarts, 0.0);
    hide Remembers;
    SavedKeeps(next, m, later);
  }

  lemma StormKeeps(l: Life, restarts: seq<real>, later: real)
    requires Inv(l) && Remembers(l, restarts, 0.0) && l.clock <= later
    ensures var m := Memory(restarts + [l.clock], l.clock + COOLDOWN);
      Inv(Life(Some(m), Save(m, later), later, l.accepted, l.clock + COOLDOWN))
  {
    hide Backed, Spread, Sorted;
    var now := l.clock;
    var i :| Backed(l.accepted, restarts, i, now);
    LongerBacked(l.accepted, restarts, i, now);
    var m := Memory(restarts + [now], now + COOLDOWN);
    var next := Life(Some(m), Save(m, now), now, l.accepted, now + COOLDOWN);
    assert l.accepted != [] ==> l.accepted[|l.accepted| - 1] in l.accepted;
    assert Remembers(next, m.restarts, now + COOLDOWN);
    hide Remembers;
    SavedKeeps(next, m, later);
  }

  /** A request that passes the breaker, or trips it, keeps the invariant. */
  lemma AskKeeps(l: Life, later: real)
    requires Inv(l) && l.memory.Some? && l.clock <= later
    ensures Inv(Live(l, l.clock, Ask(later)))
  {
    hide Inv, Remembers, Save, Recent;
    var pruned := Prune(l.memory.value, l.clock);
    var (asked, verdict) := Request(l.memory.value, l.clock);
    MemoryRemembers(l);
    if verdict.Refused? {
      PrunedKeeps(l, later);
    } else if verdict.Accepted? {
      AcceptKeeps(l, pruned.restarts, later);
    } else {
      StormKeeps(l, pruned.restarts, later);
    }
  }

  lemma MemoryRemembers(l: Life)
    requires Inv(l) && l.memory.Some?
    ensures Remembers(l, Prune(l.memory.value, l.clock).restarts, Prune(l.memory.value, l.clock).cooldownUntil)
    ensures l.clock >= Prune(l.memory.value, l.clock).cooldownUntil ==>
      Prune(l.memory.value, l.clock).cooldownUntil == 0.0
  {
    hide Backed, Spread;
    PruneRemembers(l, l.memory.value);
  }

  lemma LongerBacked(accepted: seq<real>, restarts: seq<real>, i: nat, now: real)
    requires Backed(accepted, restarts, i, now)
    ensures Backed(accepted, restarts + [now], i, now)
  {
    hide Spent;
    assert multiset(restarts + [now]) == multiset(restarts) + multiset{now};
  }

  lemma LiveKeeps(l: Life, now: real, e: Event)
    requires Inv(l) && Timely(l, now, e)
    ensures Inv(Live(l, now, e))
  {
    hide Inv, Remembers, Spread, Sorted, Load;
    ClockKeeps(l, now);
    var k := l.(clock := now);
    match e
    case Tick(later) => if l.memory.Some? { PrunedKeeps(k, later); }
    case Ask(later) => if l.memory.Some? { AskKeeps(k, later); }
    case Begin =>
    case Die => DieKeeps(k);
    case Revive(later) =>
      if l.memory.None? { ReviveKeeps(k, later); }
  }

  lemma DieKeeps(l: Life)
    requires Inv(l)
    ensures Inv(l.(memory := None))
  {
    hide Spread, Sorted, Backed;
  }

  lemma ReviveKeeps(l: Life, later: real)
    requires Inv(l) && l.clock <= later
    ensures Inv(l.(memory := Some(Load(l.file, l.clock)), file := Save(Load(l.file, l.clock), later), clock := later))
  {
    hide Remembers, Spread, Sorted, Load, Save;
    LoadRemembers(l);
    SavedKeeps(l, Load(l.file, l.clock), later);
  }

  // ---------------------------------------------------------------- over every history

  function Run(l: Life, events: seq<(real, Event)>): Life {
    if events == [] then l else
      var n := |events| - 1;
      Live(Run(l, events[..n]), events[n].0, events[n].1)
  }

  ghost predicate TimelyAll(l: Life, events: seq<(real, Event)>) {
    forall n :: 0 <= n < |events| ==> Timely(Run(l, events[..n]), events[n].0, events[n].1)
  }

  lemma {:induction false} RunKeeps(l: Life, events: seq<(real, Event)>)
    requires Inv(l) && TimelyAll(l, events)
    ensures Inv(Run(l, events))
  {
    hide Inv, Live, Timely;
    if events != [] {
      var n := |events| - 1;
      assert forall k :: 0 <= k <= n ==> events[..n][..k] == events[..k];
      RunKeeps(l, events[..n]);
      LiveKeeps(Run(l, events[..n]), events[n].0, events[n].1);
    }
  }

  lemma BirthInv()
    ensures Inv(BIRTH)
  {
    assert BIRTH.accepted[0..] == [];
    assert Backed(BIRTH.accepted, [], 0, 0.0);
  }

  /** Across any number of supervisor deaths: any four accepted restart requests within the window
      have a whole cooldown between two neighbours. */
  lemma RestartsAreSpread(events: seq<(real, Event)>, j: nat)
    requires TimelyAll(BIRTH, events)
    ensures var accepted := Run(BIRTH, events).accepted;
      j + 3 < |accepted| && accepted[j + 3] - accepted[j] < RESTART_WINDOW ==>
        exists m {:trigger accepted[m]} :: j <= m < j + 3 && accepted[m + 1] - accepted[m] >= COOLDOWN
  {
    hide Live, Remembers, Run;
    BirthInv();
    RunKeeps(BIRTH, events);
    var accepted := Run(BIRTH, events).accepted;
    if j + 3 < |accepted| && accepted[j + 3] - accepted[j] < RESTART_WINDOW {
      assert FourSpread(accepted, j);
      var m :| j <= m < j + 3 && Gap(accepted, m, 0.0);
    }
  }

  // ---------------------------------------------------------------- starts come after their requests

  /** The start that an accepted request leads to comes at most `lag` later: ending the old child takes time. */
  ghost predicate Follow(starts: seq<real>, accepted: seq<real>, at: seq<nat>, lag: real) {
    && |starts| == |at| && (forall n :: 0 <= n < |at| ==> at[n] < |accepted|)
    && (forall n, k :: 0 <= n < k < |at| ==> at[n] < at[k])
    && forall n :: 0 <= n < |at| ==> accepted[at[n]] <= starts[n] <= accepted[at[n]] + lag
  }

  /** The cooldown less the lag fits between start `n` and the next one. */
  predicate StartGap(starts: seq<real>, n: nat, lag: real)
    requires n + 1 < |starts|
  {
    starts[n + 1] - starts[n] >= COOLDOWN - lag
  }

  /** Any four starts that follow accepted requests and lie within the window less the lag contain a gap of
      the cooldown less the lag. */
  lemma StartsAreSpread(events: seq<(real, Event)>, at: seq<nat>, starts: seq<real>, lag: real)
    requires TimelyAll(BIRTH, events) && |starts| == 4 && Follow(starts, Run(BIRTH, events).accepted, at, lag)
    requires starts[3] - starts[0] < RESTART_WINDOW - lag
    ensures exists n: nat :: n < 3 && StartGap(starts, n, lag)
  {
    hide Live, Remembers, Run;
    BirthInv();
    RunKeeps(BIRTH, events);
    var accepted := Run(BIRTH, events).accepted;
    var j := at[0];
    assert at[0] < at[1] < at[2] < at[3];
    assert accepted[j + 3] <= accepted[at[3]];
    RestartsAreSpread(events, j);
    var m :| j <= m < j + 3 && accepted[m + 1] - accepted[m] >= COOLDOWN;
    var n := if m < at[1] then 0 else if m < at[2] then 1 else 2;
    assert accepted[at[n]] <= accepted[m] && accepted[m + 1] <= accepted[at[n + 1]];
    assert StartGap(starts, n, lag);
  }

  lemma OneMore(events: seq<(real, Event)>, now: real, e: Event)
    requires TimelyAll(BIRTH, events) && Timely(Run(BIRTH, events), now, e)
    ensures Run(BIRTH, events + [(now, e)]) == Live(Run(BIRTH, events), now, e)
    ensures TimelyAll(BIRTH, events + [(now, e)])
  {
    hide Live, Timely;
    var more := events + [(now, e)];
    assert more[..|events|] == events;
    forall n | 0 <= n < |more| ensures Timely(Run(BIRTH, more[..n]), more[n].0, more[n].1) {
      if n < |events| { assert more[..n] == events[..n]; }
    }
  }

  /** A supervisor is born and lets four requests through, the last as soon as the first has left the window. */
  function FourRequests(t: seq<real>): (events: seq<(real, Event)>)
    requires |t| == 4
  {
    [(t[0], Revive(t[0])), (t[0], Ask(t[0])), (t[1], Ask(t[1])), (t[2], Ask(t[2])), (t[3], Ask(t[3]))]
  }

  lemma FourAccepted(t: seq<real>)
    requires |t| == 4 && 0.0 < t[0] <= t[1] <= t[2] <= t[3] == t[0] + RESTART_WINDOW && t[1] > t[0] && t[2] < t[3]
    ensures TimelyAll(BIRTH, FourRequests(t)) && Run(BIRTH, FourRequests(t)).accepted == t
    ensures forall i :: 1 <= i <= 4 ==>
      Starts(Run(BIRTH, FourRequests(t)[..i]), FourRequests(t)[i].0, FourRequests(t)[i].1)
  {
    hide Run, TimelyAll;
    var all := FourRequests(t);
    NothingTimely();
    FirstLeaves(t);
    var e1, e2, e3, e4 := all[..1], all[..2], all[..3], all[..4];
    assert all[..0] == [] && [] + [all[0]] == e1 && e1 + [all[1]] == e2 && e2 + [all[2]] == e3;
    assert e3 + [all[3]] == e4 && e4 + [all[4]] == all;
    OneMore([], t[0], Revive(t[0]));
    Accepting(e1, t[0], t[0], [], []);
    Accepting(e2, t[1], t[1], [t[0]], [t[0]]);
    Accepting(e3, t[2], t[2], [t[0], t[1]], [t[0], t[1]]);
    assert [t[0]] + [t[1]] == [t[0], t[1]] && [t[0], t[1]] + [t[2]] == [t[0], t[1], t[2]];
    Accepting(e4, t[3], t[3], [t[0], t[1], t[2]], [t[1], t[2]]);
    assert [t[0], t[1], t[2]] + [t[3]] == t;
  }

  /** The times of four requests whose first start lags and whose starts then lie evenly. */
  function EvenTimes(lag: real): seq<real> {
    var d := (RESTART_WINDOW - lag) / 3.0;
    [1.0, 1.0 + lag + d, 1.0 + lag + d + d, 1.0 + RESTART_WINDOW]
  }

  /** The whole window is too much to ask: when ending the child takes `lag` seconds once, four starts lie
      `RESTART_WINDOW - lag` apart, hence within the window, and evenly, without any cooldown among them. */
  lemma LaggingStartsCrowd(lag: real) returns (events: seq<(real, Event)>, starts: seq<real>)
    requires 0.0 <= lag < RESTART_WINDOW
    ensures TimelyAll(BIRTH, events) && |starts| == 4 && Follow(starts, Run(BIRTH, events).accepted, [0, 1, 2, 3], lag)
    ensures events == FourRequests(EvenTimes(lag)) && starts == EvenTimes(lag)[0 := 1.0 + lag]
    ensures starts[3] - starts[0] == RESTART_WINDOW - lag
    ensures starts[1] - starts[0] == starts[2] - starts[1] == starts[3] - starts[2] < COOLDOWN
  {
    hide Run, TimelyAll;
    FourAccepted(EvenTimes(lag));
    events, starts := FourRequests(EvenTimes(lag)), EvenTimes(lag)[0 := 1.0 + lag];
  }

  /** Starts lie in the window and as far apart as the requests do, in every history. */
  ghost predicate SpreadLikeRequests(lag: real) {
    forall events, at, starts ::
      TimelyAll(BIRTH, events) && |starts| == 4 && Follow(starts, Run(BIRTH, events).accepted, at, lag)
      && starts[3] - starts[0] < RESTART_WINDOW ==>
        exists n: nat :: n < 3 && StartGap(starts, n, 0.0)
  }

  /** The bounds on requests are bounds on starts exactly when ending the old child takes no time. */
  lemma SpreadLikeRequestsIff(lag: real)
    requires 0.0 <= lag
    ensures SpreadLikeRequests(lag) <==> lag == 0.0
  {
    hide Run, TimelyAll;
    if lag == 0.0 {
      forall events, at, starts | TimelyAll(BIRTH, events) && |starts| == 4
          && Follow(starts, Run(BIRTH, events).accepted, at, lag) && starts[3] - starts[0] < RESTART_WINDOW
        ensures exists n: nat :: n < 3 && StartGap(starts, n, 0.0)
      {
        StartsAreSpread(events, at, starts, lag);
      }
    } else {
      var short := if lag < 1.0 then lag else 1.0;
      var events, starts := LaggingStartsCrowd(short);
      assert Follow(starts, Run(BIRTH, events).accepted, [0, 1, 2, 3], lag);
      assert forall n: nat :: n < 3 ==> !StartGap(starts, n, 0.0);
    }
  }

  lemma NothingTimely()
    ensures TimelyAll(BIRTH, []) && Run(BIRTH, []) == BIRTH
  {
  }

  /** One more request is let through, as long as fewer than the maximum are recent. */
  lemma Accepting(events: seq<(real, Event)>, now: real, later: real, times: seq<real>, recent: seq<real>)
    requires TimelyAll(BIRTH, events) && Run(BIRTH, events).clock <= now <= later
    requires Run(BIRTH, events).memory.Some? && Run(BIRTH, events).memory.value.cooldownUntil == 0.0 && now >= 0.0
    requires Recent(Run(BIRTH, events).memory.value.restarts, now) == recent && |recent| < RESTART_MAX
    requires Run(BIRTH, events).accepted == times
    ensures var next := events + [(now, Ask(later))];
      && TimelyAll(BIRTH, next) && Run(BIRTH, next).clock == later && Run(BIRTH, next).accepted == times + [now]
      && Run(BIRTH, next).memory == Some(Memory(recent + [now], 0.0))
  {
    hide Run, TimelyAll, Recent;
    OneMore(events, now, Ask(later));
  }

  /** The first request leaves the window with the fourth. */
  lemma FirstLeaves(t: seq<real>)
    requires |t| == 4 && t[0] < t[1] <= t[2] < t[3] == t[0] + RESTART_WINDOW
    ensures Recent([], t[0]) == [] && Recent([t[0]], t[1]) == [t[0]] && Recent([t[0], t[1]], t[2]) == [t[0], t[1]]
    ensures Recent([t[0], t[1], t[2]], t[3]) == [t[1], t[2]]
  {
    assert Recent([], t[0]) == [];
    hide Recent;
    RecentOne(t[0], t[1]);
    RecentOne(t[0], t[2]);
    RecentOne(t[0], t[3]);
    RecentAppend([t[0]], t[1], t[2]);
    RecentAppend([t[0]], t[1], t[3]);
    RecentAppend([t[0], t[1]], t[2], t[3]);
    assert [t[0]] + [t[1]] == [t[0], t[1]] && [t[0], t[1]] + [t[2]] == [t[0], t[1], t[2]];
    assert [] + [t[1]] == [t[1]] && [t[1]] + [t[2]] == [t[1], t[2]];
  }

  lemma RecentAppend(times: seq<real>, t: real, now: real)
    ensures Recent(times + [t], now) == Recent(times, now) + if now - t < RESTART_WINDOW then [t] else []
  {
    assert (times + [t])[..|times|] == times;
  }

  lemma RecentOne(t: real, now: real)
    ensures Recent([t], now) == if now - t < RESTART_WINDOW then [t] else []
  {
    RecentAppend([], t, now);
    assert [] + [t] == [t];
  }

  /** No child is started, by whatever path and by whichever supervisor, before a cooldown is over. */
  lemma NoStartInCooldown(events: seq<(real, Event)>, now: real, e: Event)
    requires TimelyAll(BIRTH, events) && Timely(Run(BIRTH, events), now, e)
    ensures Starts(Run(BIRTH, events), now, e) ==> now >= Run(BIRTH, events).end
  {
    hide Live, Run, Spread, Backed;
    BirthInv();
    RunKeeps(BIRTH, events);
    ClockKeeps(Run(BIRTH, events), now);
  }

  // ---------------------------------------------------------------- four requests trip the breaker

  /** The request times among the events, while a supervisor is alive. */
  function Asked(l: Life, events: seq<(real, Event)>): seq<real> {
    if events == [] then [] else
      var n := |events| - 1;
      Asked(l, events[..n]) + if events[n].1.Ask? && Run(l, events[..n]).memory.Some? then [events[n].0] else []
  }

  /** Every request was let through: none was refused, none tripped the breaker. */
  ghost predicate Untripped(l: Life, events: seq<(real, Event)>) {
    forall n :: 0 <= n < |events| && events[n].1.Ask? && Run(l, events[..n]).memory.Some? ==>
      Request(Run(l, events[..n]).memory.value, events[n].0).1.Accepted?
  }

  ghost predicate Carries(l: Life, asked: seq<real>) {
    asked != [] ==>
      && multiset(asked) <= multiset(l.file.restarts) && l.file.cooldownUntil == 0.0
      && (l.memory.Some? ==>
            multiset(asked) <= multiset(l.memory.value.restarts) && l.memory.value.cooldownUntil == 0.0)
  }

  lemma {:induction false} RecentKeepsAll(times: seq<real>, now: real)
    requires forall t :: t in times ==> now - t < RESTART_WINDOW
    ensures Recent(times, now) == times
  {
    if times != [] {
      var n := |times| - 1;
      assert times == times[..n] + [times[n]];
      assert forall t :: t in times[..n] ==> t in times;
      assert times[n] in times;
      RecentKeepsAll(times[..n], now);
    }
  }

  lemma StillIncluded(asked: seq<real>, restarts: seq<real>, now: real)
    requires multiset(asked) <= multiset(restarts) && forall t :: t in asked ==> now - t < RESTART_WINDOW
    ensures multiset(asked) <= multiset(Recent(restarts, now))
  {
    RecentKeepsAll(asked, now);
    RecentIncluded(asked, restarts, now);
  }

  lemma PruneCarries(m: Memory, asked: seq<real>, now: real)
    requires multiset(asked) <= multiset(m.restarts) && m.cooldownUntil == 0.0
    requires forall t :: t in asked ==> now - t < RESTART_WINDOW
    ensures multiset(asked) <= multiset(Prune(m, now).restarts) && Prune(m, now).cooldownUntil == 0.0
  {
    hide Recent;
    StillIncluded(asked, m.restarts, now);
  }

  lemma LoadCarries(f: Saved, asked: seq<real>, now: real)
    requires multiset(asked) <= multiset(f.restarts) && f.cooldownUntil == 0.0
    requires forall t :: t in asked ==> now - t < RESTART_WINDOW
    ensures multiset(asked) <= multiset(Load(f, now).restarts) && (now >= 0.0 ==> Load(f, now).cooldownUntil == 0.0)
  {
    hide Recent;
    StillIncluded(asked, f.restarts, now);
  }

  lemma AskCarries(m: Memory, asked: seq<real>, now: real)
    requires Request(m, now).1.Accepted? && forall t :: t in asked ==> now - t < RESTART_WINDOW
    requires asked != [] ==> multiset(asked) <= multiset(m.restarts) && m.cooldownUntil == 0.0
    ensures multiset(asked + [now]) <= multiset(Request(m, now).0.restarts) && Request(m, now).0.cooldownUntil == 0.0
  {
    hide Recent;
    var pruned := Prune(m, now);
    if asked == [] { assert multiset(asked) == multiset{}; } else { PruneCarries(m, asked, now); }
    assert multiset(asked + [now]) == multiset(asked) + multiset{now};
    assert multiset(pruned.restarts + [now]) == multiset(pruned.restarts) + multiset{now};
  }

  lemma LiveCarries(l: Life, now: real, e: Event, asked: seq<real>)
    requires 0.0 <= now && Carries(l, asked) && forall t :: t in asked ==> now - t < RESTART_WINDOW
    requires e.Ask? && l.memory.Some? ==> Request(l.memory.value, now).1.Accepted?
    ensures Carries(Live(l, now, e), if e.Ask? && l.memory.Some? then asked + [now] else asked)
  {
    hide Request, Prune, Load;
    if e.Ask? && l.memory.Some? {
      AskCarries(l.memory.value, asked, now);
    } else if asked != [] {
      if l.memory.Some? { PruneCarries(l.memory.value, asked, now); }
      LoadCarries(l.file, asked, now);
    }
  }

  lemma {:induction false} RunCarries(l: Life, events: seq<(real, Event)>, to: real)
    requires Untripped(l, events)
    requires forall n :: 0 <= n < |events| ==> 0.0 <= events[n].0 <= to
    requires forall t :: t in Asked(l, events) ==> to - t < RESTART_WINDOW
    ensures Carries(Run(l, events), Asked(l, events))
  {
    hide Live, Carries;
    if events == [] {
      assert Carries(l, []) by { NothingCarried(l); }
    } else {
      var n := |events| - 1;
      assert forall k :: 0 <= k <= n ==> events[..n][..k] == events[..k];
      assert forall t :: t in Asked(l, events[..n]) ==> t in Asked(l, events);
      RunCarries(l, events[..n], to);
      LiveCarries(Run(l, events[..n]), events[n].0, events[n].1, Asked(l, events[..n]));
      assert Asked(l, events[..n]) + [] == Asked(l, events[..n]);
    }
  }

  lemma NothingCarried(l: Life)
    ensures Carries(l, [])
  {
  }

  /** At most three restart requests pass within the window, whatever happens between them and
      however many supervisors take part: the fourth is refused or enters a cooldown. */
  lemma FourthRequestCools(l: Life, events: seq<(real, Event)>, to: real, later: real)
    requires Untripped(l, events) && Run(l, events).memory.Some?
    requires forall n :: 0 <= n < |events| ==> 0.0 <= events[n].0 <= to
    requires 0.0 <= to && |Asked(l, events)| >= RESTART_MAX
    requires forall t :: t in Asked(l, events) ==> to - t < RESTART_WINDOW
    ensures Request(Run(l, events).memory.value, to).1 == Storm
    ensures Live(Run(l, events), to, Ask(later)).end == to + COOLDOWN
  {
    hide Recent, Live, Run, Asked;
    RunCarries(l, events, to);
    StormAt(Run(l, events).memory.value, Asked(l, events), to);
    StormEnds(Run(l, events), to, later);
  }

  lemma StormAt(m: Memory, asked: seq<real>, now: real)
    requires 0.0 <= now && |asked| >= RESTART_MAX && forall t :: t in asked ==> now - t < RESTART_WINDOW
    requires multiset(asked) <= multiset(m.restarts) && m.cooldownUntil == 0.0
    ensures Request(m, now).1 == Storm
  {
    hide Recent;
    PruneCarries(m, asked, now);
    SmallerMultiset(multiset(asked), multiset(Prune(m, now).restarts));
    assert |asked| == |multiset(asked)|;
  }

  lemma StormEnds(l: Life, now: real, later: real)
    requires l.memory.Some? && Request(l.memory.value, now).1 == Storm
    ensures Live(l, now, Ask(later)).end == now + COOLDOWN
  {
    hide Prune;
  }

  // ---------------------------------------------------------------- reading back what was written

  /** Loading a saved state is the same as having gone on with it, except in one case: the cooldown
      was already over when the state was saved and had not been pruned yet.  Then the requests that
      led to it come back if they are still in the window. */
  lemma LoadAfterSave(m: Memory, saved: real, now: real)
    requires 0.0 < saved <= now && (m.cooldownUntil == 0.0 || 0.0 < m.cooldownUntil <= saved + COOLDOWN)
    ensures var loaded, kept := Load(Save(m, saved), now), Prune(m, now);
      var forgotten := 0.0 < m.cooldownUntil <= saved && Recent(m.restarts, now) != [];
      && loaded.cooldownUntil == kept.cooldownUntil
      && (kept.cooldownUntil == 0.0 ==> (loaded.restarts == kept.restarts <==> !forgotten))
  {
  }

  /** The list is not looked at while a cooldown lasts, and both forms drop it when it ends. */
  lemma CooldownHidesTheList(a: Memory, b: Memory, now: real)
    requires a.cooldownUntil == b.cooldownUntil && a.cooldownUntil != 0.0
    ensures Request(a, now).1 == Request(b, now).1
    ensures now >= a.cooldownUntil ==> Prune(a, now) == Prune(b, now)
  {
  }
}
