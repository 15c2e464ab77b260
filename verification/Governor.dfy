/**
The global request governor: one token bucket for all workers, a cooldown that blocks everyone and
a period of halved rate.  Every operation runs under one lock and reads the monotonic clock there,
so a history is a list of operations at times that never go back.
*/
module Governor {
  const MIN_RATE := 0.05
  const MIN_BURST := 1
  const SLOW_FACTOR := 0.5

  function Max(a: real, b: real): real { if a < b then b else a }

  function Min(a: real, b: real): real { if a < b then a else b }

  // ---------------------------------------------------------------- one operation

  datatype Bucket = Bucket(rate: real, burst: real, tokens: real, last: real, blockUntil: real, slowUntil: real)

  function Start(rate: real, burst: int, now: real): Bucket {
    var capacity := if burst < MIN_BURST then MIN_BURST else burst;
    Bucket(Max(rate, MIN_RATE), capacity as real, capacity as real, now, 0.0, 0.0)
  }

  function RateAt(b: Bucket, now: real): real { if now < b.slowUntil then b.rate * SLOW_FACTOR else b.rate }

  function Refill(b: Bucket, now: real): Bucket {
    b.(tokens := Min(b.burst, b.tokens + (now - b.last) * RateAt(b, now)), last := now)
  }

  function Throttled(b: Bucket, now: real, seconds: real): Bucket {
    if seconds <= 0.0 then b else
      var until := Max(b.blockUntil, now + seconds);
      b.(blockUntil := until, tokens := 1.0, last := until)
  }

  function Slowed(b: Bucket, now: real, seconds: real): Bucket {
    if seconds <= 0.0 then b else b.(slowUntil := Max(b.slowUntil, now + seconds))
  }

  /** One round of the waiting loop: a grant, or how long to wait. */
  datatype Turn = Granted | Wait(seconds: real)

  function Try(b: Bucket, now: real): (Bucket, Turn)
    requires b.rate > 0.0
  {
    if now < b.blockUntil then (b, Wait(b.blockUntil - now))
    else
      var filled := Refill(b, now);
      if filled.tokens >= 1.0 then (filled.(tokens := filled.tokens - 1.0), Granted)
      else (filled, Wait((1.0 - filled.tokens) / RateAt(b, now)))
  }

  class RequestGovernor {
    const rate: real
    const burst: real
    var tokens: real
    var last: real
    var blockUntil: real
    var slowUntil: real

    constructor (rate: real, burst: int, now: real)
      ensures Model() == Start(rate, burst, now) && Valid()
    {
      this.rate := Max(rate, MIN_RATE);
      var capacity := if burst < MIN_BURST then MIN_BURST else burst;
      this.burst := capacity as real;
      tokens, last, blockUntil, slowUntil := capacity as real, now, 0.0, 0.0;
    }

    function Model(): Bucket
      reads this
    {
      Bucket(rate, burst, tokens, last, blockUntil, slowUntil)
    }

    ghost predicate Valid()
      reads this
    {
      Sound(Model())
    }

    /** One round of `acquire`: the caller waits and tries again unless it is granted. */
    method TryAcquire(now: real) returns (turn: Turn)
      requires Valid()
      modifies this
      ensures (Model(), turn) == Try(old(Model()), now)
    {
      if now < blockUntil { return Wait(blockUntil - now); }
      var current := if now < slowUntil then rate * SLOW_FACTOR else rate;
      ghost var before := Model();
      assert current == RateAt(before, now);
      tokens := Min(burst, tokens + (now - last) * current);
      last := now;
      assert Model() == Refill(before, now);
      if tokens >= 1.0 {
        tokens := tokens - 1.0;
        return Granted;
      }
      return Wait((1.0 - tokens) / current);
    }

    method Throttle(now: real, seconds: real)
      modifies this
      ensures Model() == Throttled(old(Model()), now, seconds)
    {
      if seconds <= 0.0 { return; }
      blockUntil := Max(blockUntil, now + seconds);
      tokens := 1.0;
      last := blockUntil;
    }

    method Slow(now: real, seconds: real)
      modifies this
      ensures Model() == Slowed(old(Model()), now, seconds)
    {
      if seconds <= 0.0 { return; }
      slowUntil := Max(slowUntil, now + seconds);
    }
  }

  // ---------------------------------------------------------------- histories

  datatype Event = TryAt(now: real) | ThrottleAt(now: real, seconds: real) | SlowAt(now: real, seconds: real)

  ghost predicate Sound(b: Bucket) {
    b.rate > 0.0 && b.burst >= 1.0 && 0.0 <= b.tokens <= b.burst
  }

  /** The refill clock runs ahead of the real one only during a cooldown, with one token in stock. */
  ghost predicate InStep(b: Bucket, now: real) {
    Sound(b) && (b.last <= now || (b.last == b.blockUntil && b.tokens == 1.0))
  }

  function Apply(b: Bucket, e: Event): Bucket
    requires b.rate > 0.0
  {
    match e
    case TryAt(now) => Try(b, now).0
    case ThrottleAt(now, seconds) => Throttled(b, now, seconds)
    case SlowAt(now, seconds) => Slowed(b, now, seconds)
  }

  predicate Grants(b: Bucket, e: Event)
    requires b.rate > 0.0
  {
    e.TryAt? && Try(b, e.now).1.Granted?
  }

  lemma ApplyKeeps(b: Bucket, e: Event, now: real)
    requires InStep(b, now) && now <= e.now
    ensures InStep(Apply(b, e), e.now) && Apply(b, e).rate == b.rate && Apply(b, e).burst == b.burst
    ensures Apply(b, e).blockUntil >= b.blockUntil && Apply(b, e).slowUntil >= b.slowUntil
  {
    if e.TryAt? && e.now >= b.blockUntil { RefillGrows(b, e.now); }
  }

  lemma RefillGrows(b: Bucket, now: real)
    requires Sound(b) && b.last <= now
    ensures b.tokens <= Refill(b, now).tokens <= b.burst
  {
    assert (now - b.last) * RateAt(b, now) >= 0.0;
  }

  /** All events lie between the two times, and none goes back. */
  ghost predicate Ordered(events: seq<Event>, from: real, to: real) {
    from <= to && (events == [] || (from <= events[0].now && Ordered(events[1..], events[0].now, to)))
  }

  function GrantCount(b: Bucket, events: seq<Event>): nat
    requires b.rate > 0.0
    decreases |events|
  {
    if events == [] then 0 else
      RateStays(b, events[0]);
      (if Grants(b, events[0]) then 1 else 0) + GrantCount(Apply(b, events[0]), events[1..])
  }

  lemma RateStays(b: Bucket, e: Event)
    requires b.rate > 0.0
    ensures Apply(b, e).rate == b.rate
  {
  }

  /** A cooldown too short to pay for the token it hands out, started while none was running. */
  predicate IsShort(b: Bucket, e: Event, rho: real) {
    e.ThrottleAt? && 0.0 < e.seconds && Earned(rho, e.seconds) < 1.0 && b.last <= e.now
  }

  function ShortCount(b: Bucket, events: seq<Event>, rho: real): nat
    requires b.rate > 0.0
    decreases |events|
  {
    if events == [] then 0 else
      RateStays(b, events[0]);
      (if IsShort(b, events[0], rho) then 1 else 0) + ShortCount(Apply(b, events[0]), events[1..], rho)
  }

  /** No refill up to `to` is faster than `rho`: the full rate, or half of it inside a slow period. */
  predicate RateBound(b: Bucket, to: real, rho: real) {
    rho == b.rate || (rho == b.rate * SLOW_FACTOR && to < b.slowUntil)
  }

  // ---------------------------------------------------------------- the bound

  /** The most that can still be granted between `from` and `to`. */
  function Worth(b: Bucket, from: real, to: real, rho: real): real {
    if b.last <= from then Min(b.burst, b.tokens + Earned(rho, from - b.last)) + Earned(rho, to - from)
    else Max(0.0, b.tokens + Earned(rho, to - b.last))
  }

  function Earned(rho: real, seconds: real): real { rho * seconds }

  lemma EarnedNotNegative(rho: real, d: real)
    requires rho >= 0.0 && d >= 0.0
    ensures Earned(rho, d) >= 0.0
  {
  }

  lemma EarnedGrows(rho: real, a: real, b: real)
    requires rho >= 0.0 && a <= b
    ensures Earned(rho, a) <= Earned(rho, b)
  {
    EarnedNotNegative(rho, b - a);
    EarnedSplit(rho, a, b - a);
  }

  lemma EarnedSplit(rho: real, a: real, b: real)
    ensures Earned(rho, a + b) == Earned(rho, a) + Earned(rho, b)
  {
  }

  lemma RhoPositive(b: Bucket, to: real, rho: real)
    requires b.rate > 0.0 && RateBound(b, to, rho)
    ensures 0.0 < rho <= b.rate
    ensures forall now :: now <= to ==> RateAt(b, now) <= rho
  {
  }

  lemma WorthShrinks(b: Bucket, from: real, now: real, to: real, rho: real)
    requires InStep(b, from) && from <= now <= to && rho >= 0.0
    ensures Worth(b, now, to, rho) <= Worth(b, from, to, rho)
  {
    hide Earned;
    EarnedNotNegative(rho, to - now);
    EarnedSplit(rho, now - from, to - now);
    assert (now - from) + (to - now) == to - from;
    if b.last <= from {
      EarnedSplit(rho, from - b.last, now - from);
      assert (from - b.last) + (now - from) == now - b.last;
      EarnedNotNegative(rho, now - from);
      EarnedNotNegative(rho, from - b.last);
    } else if b.last <= now {
      EarnedNotNegative(rho, now - b.last);
      EarnedSplit(rho, now - b.last, to - now);
      assert (now - b.last) + (to - now) == to - b.last;
    }
  }

  lemma WorthAtLast(b: Bucket, to: real, rho: real)
    requires b.tokens <= b.burst
    ensures Worth(b, b.last, to, rho) == b.tokens + Earned(rho, to - b.last)
  {
    assert b.last - b.last == 0.0;
    assert Earned(rho, 0.0) == 0.0;
  }

  lemma RefillWithin(b: Bucket, now: real, to: real, rho: real)
    requires InStep(b, now) && now <= to && RateBound(b, to, rho) && b.last <= now
    ensures Refill(b, now).tokens <= Min(b.burst, b.tokens + Earned(rho, now - b.last))
    ensures 0.0 <= Refill(b, now).tokens
  {
    RhoPositive(b, to, rho);
    Multiplied(now - b.last, RateAt(b, now), rho);
    RefillGrows(b, now);
  }

  lemma TryPays(b: Bucket, now: real, to: real, rho: real)
    requires InStep(b, now) && now <= to && RateBound(b, to, rho)
    ensures Worth(Try(b, now).0, now, to, rho) + (if Try(b, now).1.Granted? then 1.0 else 0.0) <= Worth(b, now, to, rho)
  {
    hide Earned, Refill, RateBound;
    if now >= b.blockUntil {
      RefillWithin(b, now, to, rho);
      RefillShape(b, now);
      WorthAtLast(Try(b, now).0, to, rho);
    }
  }

  lemma RefillShape(b: Bucket, now: real)
    ensures Refill(b, now) == b.(tokens := Refill(b, now).tokens, last := now) && Refill(b, now).tokens <= b.burst
  {
  }

  lemma Multiplied(d: real, r: real, rho: real)
    requires d >= 0.0 && r <= rho
    ensures d * r <= rho * d
  {
  }

  lemma ThrottlePays(b: Bucket, now: real, seconds: real, to: real, rho: real)
    requires InStep(b, now) && now <= to && rho > 0.0
    ensures Worth(Throttled(b, now, seconds), now, to, rho)
         <= Worth(b, now, to, rho) + if IsShort(b, ThrottleAt(now, seconds), rho) then 1.0 else 0.0
  {
    hide Earned;
    if seconds > 0.0 {
      var until := Max(b.blockUntil, now + seconds);
      EarnedNotNegative(rho, to - now);
      assert Worth(Throttled(b, now, seconds), now, to, rho) == Max(0.0, 1.0 + Earned(rho, to - until));
      if b.last <= now {
        EarnedNotNegative(rho, now - b.last);
        assert Worth(b, now, to, rho) >= Earned(rho, to - now);
        Ahead(rho, to, now, seconds, until);
      } else {
        EarnedGrows(rho, to - until, to - b.last);
      }
    }
  }

  /** A cooldown of `seconds` puts the next refill `seconds` of rate behind. */
  lemma Ahead(rho: real, to: real, now: real, seconds: real, until: real)
    requires rho > 0.0 && now <= to && seconds > 0.0 && until >= now + seconds
    ensures Earned(rho, to - until) <= Earned(rho, to - now)
    ensures Earned(rho, seconds) >= 1.0 ==> 1.0 + Earned(rho, to - until) <= Earned(rho, to - now)
  {
    EarnedGrows(rho, to - until, to - now - seconds);
    EarnedSplit(rho, to - now - seconds, seconds);
    EarnedNotNegative(rho, seconds);
    assert (to - now - seconds) + seconds == to - now;
  }

  lemma ApplyPays(b: Bucket, e: Event, from: real, to: real, rho: real)
    requires InStep(b, from) && from <= e.now <= to && RateBound(b, to, rho)
    ensures Worth(Apply(b, e), e.now, to, rho) + (if Grants(b, e) then 1.0 else 0.0)
         <= Worth(b, from, to, rho) + if IsShort(b, e, rho) then 1.0 else 0.0
  {
    WorthShrinks(b, from, e.now, to, rho);
    match e
    case TryAt(now) => TryPays(b, now, to, rho);
    case ThrottleAt(now, seconds) => ThrottlePays(b, now, seconds, to, rho);
    case SlowAt(_, _) =>
  }

  lemma {:induction false} GrantsAreBounded(b: Bucket, events: seq<Event>, from: real, to: real, rho: real)
    requires InStep(b, from) && Ordered(events, from, to) && RateBound(b, to, rho)
    ensures GrantCount(b, events) as real <= Worth(b, from, to, rho) + ShortCount(b, events, rho) as real
    decreases |events|
  {
    hide Apply, Grants, IsShort, InStep, RateBound, Worth;
    if events == [] {
      WorthNotNegative(b, from, to, rho);
    } else {
      var e := events[0];
      InBounds(events, from, to);
      StaysSound(b, from);
      ApplyPays(b, e, from, to, rho);
      ApplyKeeps(b, e, from);
      RateStays(b, e);
      BoundStays(b, e, to, rho);
      GrantsAreBounded(Apply(b, e), events[1..], e.now, to, rho);
    }
  }

  lemma {:induction false} InBounds(events: seq<Event>, from: real, to: real)
    requires Ordered(events, from, to) && events != []
    ensures from <= events[0].now <= to
  {
  }

  lemma StaysSound(b: Bucket, now: real)
    requires InStep(b, now)
    ensures b.rate > 0.0
  {
  }

  lemma BoundStays(b: Bucket, e: Event, to: real, rho: real)
    requires b.rate > 0.0 && RateBound(b, to, rho)
    ensures RateBound(Apply(b, e), to, rho)
  {
  }

  lemma WorthNotNegative(b: Bucket, from: real, to: real, rho: real)
    requires InStep(b, from) && from <= to && RateBound(b, to, rho)
    ensures 0.0 <= Worth(b, from, to, rho) <= b.burst + Earned(rho, to - from)
  {
    hide Earned;
    RhoPositive(b, to, rho);
    EarnedNotNegative(rho, to - from);
    if b.last > from { EarnedGrows(rho, to - b.last, to - from); } else { EarnedNotNegative(rho, from - b.last); }
  }

  /** In every window the grants are at most burst + rho * length, plus one for every cooldown too
      short to pay for its token.  With `rho` the configured rate this holds in any window, with half
      of it in any window inside a slow period. */
  lemma WindowBound(b: Bucket, events: seq<Event>, from: real, to: real, rho: real)
    requires InStep(b, from) && Ordered(events, from, to) && RateBound(b, to, rho)
    ensures GrantCount(b, events) as real <= b.burst + rho * (to - from) + ShortCount(b, events, rho) as real
  {
    GrantsAreBounded(b, events, from, to, rho);
    WorthNotNegative(b, from, to, rho);
  }

  /** After a cooldown only one token is in stock: in the d seconds after its end at most
      1 + rho * d requests are granted. */
  lemma CooldownBound(b: Bucket, now: real, seconds: real, events: seq<Event>, d: real, rho: real)
    requires InStep(b, now) && seconds > 0.0 && d >= 0.0
    requires var after := Throttled(b, now, seconds);
      Ordered(events, now, after.blockUntil + d) && RateBound(after, after.blockUntil + d, rho)
    ensures var after := Throttled(b, now, seconds);
      GrantCount(after, events) as real <= 1.0 + rho * d + ShortCount(after, events, rho) as real
  {
    hide GrantCount, ShortCount, Ordered;
    var after := Throttled(b, now, seconds);
    var to := after.blockUntil + d;
    GrantsAreBounded(after, events, now, to, rho);
    RhoPositive(after, to, rho);
    EarnedNotNegative(rho, d);
    assert to - after.last == d;
    assert Worth(after, now, to, rho) == Max(0.0, 1.0 + Earned(rho, d));
  }

  /** Nobody is let through while anyone's cooldown lasts. */
  lemma {:induction false} NoGrantWhileBlocked(b: Bucket, events: seq<Event>, from: real, to: real)
    requires InStep(b, from) && Ordered(events, from, to) && to < b.blockUntil
    ensures GrantCount(b, events) == 0
    decreases |events|
  {
    if events != [] {
      InBounds(events, from, to);
      ApplyKeeps(b, events[0], from);
      NoGrantWhileBlocked(Apply(b, events[0]), events[1..], events[0].now, to);
    }
  }

  /** A waiter that sleeps as long as it was told is let through, if nothing happened meanwhile. */
  lemma WaitSuffices(b: Bucket, now: real)
    requires InStep(b, now) && now >= b.blockUntil && Try(b, now).1.Wait?
    ensures Try(Try(b, now).0, now + Try(b, now).1.seconds).1.Granted?
  {
    var (filled, turn) := Try(b, now);
    var rate := RateAt(b, now);
    var later := now + turn.seconds;
    RefillGrows(b, now);
    assert turn.seconds * rate == 1.0 - filled.tokens;
    assert later >= now;
    Multiplied(turn.seconds, rate, RateAt(filled, later));
    assert filled.tokens + (later - filled.last) * RateAt(filled, later) >= 1.0;
  }

  /** Cooldowns of at least one token's worth of time cost nothing extra. */
  lemma {:induction false} LongCooldownsAreFree(b: Bucket, events: seq<Event>, rho: real)
    requires b.rate > 0.0
    requires forall e :: e in events && e.ThrottleAt? ==> e.seconds <= 0.0 || Earned(rho, e.seconds) >= 1.0
    ensures ShortCount(b, events, rho) == 0
    decreases |events|
  {
    if events != [] {
      RateStays(b, events[0]);
      LongCooldownsAreFree(Apply(b, events[0]), events[1..], rho);
    }
  }

  // ---------------------------------------------------------------- from the start

  /** A new governor starts in step, whatever its configuration. */
  lemma StartsInStep(rate: real, burst: int, now: real)
    ensures InStep(Start(rate, burst, now), now)
  {
  }

  function After(b: Bucket, events: seq<Event>): (after: Bucket)
    requires b.rate > 0.0
    ensures after.rate == b.rate
    decreases |events|
  {
    if events == [] then b else
      RateStays(b, events[0]);
      After(Apply(b, events[0]), events[1..])
  }

  lemma {:induction false} AfterInStep(b: Bucket, events: seq<Event>, from: real, to: real)
    requires InStep(b, from) && Ordered(events, from, to)
    ensures InStep(After(b, events), to) && After(b, events).burst == b.burst
    decreases |events|
  {
    hide Apply;
    if events != [] {
      InBounds(events, from, to);
      ApplyKeeps(b, events[0], from);
      AfterInStep(Apply(b, events[0]), events[1..], events[0].now, to);
    }
  }

  /** The bound holds in every window of every history of a governor, with its configured burst and rate,
      or half of that rate inside a slow period. */
  lemma EveryWindowIsBounded(rate: real, burst: int, born: real, before: seq<Event>, events: seq<Event>,
                             from: real, to: real, rho: real)
    requires Ordered(before, born, from) && Ordered(events, from, to)
    requires RateBound(After(Start(rate, burst, born), before), to, rho)
    ensures var b := After(Start(rate, burst, born), before);
      GrantCount(b, events) as real
        <= Start(rate, burst, born).burst + rho * (to - from) + ShortCount(b, events, rho) as real
  {
    hide Apply, GrantCount, ShortCount;
    StartsInStep(rate, burst, born);
    AfterInStep(Start(rate, burst, born), before, born, from);
    WindowBound(After(Start(rate, burst, born), before), events, from, to, rho);
  }
}
