/**
What the governor must let through: how many requests pass at one moment, how long a waiter has to wait
and no longer, and what a cooldown and a slow period do to both.
*/
module GovernorPace {
  import opened Governor

  /** The rate in force: half of the configured one while a slow period lasts. */
  function Pace(b: Bucket, now: real): real { if b.slowUntil <= now then b.rate else b.rate / 2.0 }

  /** What is in stock at `now`: the tokens left and what was earned since, up to the burst. */
  function Stock(b: Bucket, now: real): real {
    var earned := b.tokens + Earned(Pace(b, now), now - b.last);
    if earned <= b.burst then earned else b.burst
  }

  /** `n` requests at one moment. */
  function Crowd(now: real, n: nat): seq<Event> { if n == 0 then [] else [TryAt(now)] + Crowd(now, n - 1) }

  lemma PaceIs(b: Bucket, now: real)
    ensures Pace(b, now) == RateAt(b, now)
    ensures Stock(b, now) == Refill(b, now).tokens
  {
    assert b.rate * 0.5 == b.rate / 2.0;
    Swapped(now - b.last, RateAt(b, now));
  }

  lemma Swapped(x: real, y: real)
    ensures x * y == y * x
  {
  }

  /** Once a refill has run, another one at the same moment changes nothing. */
  lemma NothingEarned(b: Bucket, now: real)
    requires b.last == now && b.tokens <= b.burst
    ensures Stock(b, now) == b.tokens
  {
    assert Earned(Pace(b, now), now - b.last) == 0.0;
  }

  /** One request that is not blocked: granted exactly when a whole token is in stock, and it costs one. */
  lemma TryTakesOne(b: Bucket, now: real)
    requires Sound(b) && b.blockUntil <= now
    ensures var (next, turn) := Try(b, now);
      && (turn == Granted <==> Stock(b, now) >= 1.0)
      && next == b.(tokens := Stock(b, now) - (if Stock(b, now) >= 1.0 then 1.0 else 0.0), last := now)
      && (turn != Granted ==> turn == Wait((1.0 - Stock(b, now)) / Pace(b, now)))
  {
    hide Stock, Pace, Refill;
    PaceIs(b, now);
    RefillShape(b, now);
  }

  /** Of a crowd at one moment, as many pass as there are whole tokens in stock. */
  lemma {:induction false} CrowdPassesStock(b: Bucket, now: real, n: nat)
    requires Sound(b) && b.blockUntil <= now && b.last <= now
    ensures GrantCount(b, Crowd(now, n)) == if n as real <= Stock(b, now) then n else Stock(b, now).Floor
    decreases n
  {
    hide Stock, Pace;
    StockIsSound(b, now);
    if n > 0 {
      TryTakesOne(b, now);
      var next := Try(b, now).0;
      assert Crowd(now, n)[0] == TryAt(now) && Crowd(now, n)[1..] == Crowd(now, n - 1);
      NothingEarned(next, now);
      CrowdPassesStock(next, now, n - 1);
    }
  }

  lemma StockIsSound(b: Bucket, now: real)
    requires Sound(b) && b.last <= now
    ensures 0.0 <= Stock(b, now) <= b.burst
  {
    assert Pace(b, now) > 0.0;
    hide Pace, Earned;
    EarnedNotNegative(Pace(b, now), now - b.last);
  }

  /** A new governor has the configured rate and burst, neither less than its minimum, and lets a crowd of
      the size of its burst pass at once, and no more. */
  lemma NewGovernorServesItsBurst(rate: real, burst: int, now: real, n: nat)
    requires now >= 0.0
    ensures var b := Start(rate, burst, now);
      && b.rate == (if rate <= 0.05 then 0.05 else rate) && b.slowUntil <= now && b.blockUntil <= now
      && GrantCount(b, Crowd(now, n)) == (if n <= 1 || n <= burst then n else if burst <= 1 then 1 else burst)
  {
    var b := Start(rate, burst, now);
    NothingEarned(b, now);
    CrowdPassesStock(b, now, n);
  }

  /** A waiter that nothing disturbs is let through after the time it was told, and not earlier, as long as
      the rate stays what it is. */
  lemma WaitIsExact(b: Bucket, now: real, d: real)
    requires InStep(b, now) && b.blockUntil <= now && b.last <= now && Try(b, now).1.Wait? && d >= 0.0
    requires b.slowUntil <= now || now + d < b.slowUntil
    ensures Try(Try(b, now).0, now + d).1 == Granted <==> d >= Try(b, now).1.seconds
    ensures Try(b, now).1.seconds <= 1.0 / Pace(b, now)
  {
    hide Stock, Refill, Earned;
    TryTakesOne(b, now);
    StockIsSound(b, now);
    var (next, turn) := Try(b, now);
    var pace := Pace(b, now);
    assert Pace(next, now + d) == pace && pace > 0.0;
    TryTakesOne(next, now + d);
    hide Try, Pace;
    StockLater(next, now + d);
    assert (now + d) - next.last == d;
    var short := 1.0 - next.tokens;
    Quotients(short, pace);
    Earlier(d, short / pace, pace);
  }

  lemma StockLater(b: Bucket, now: real)
    requires b.burst >= 1.0
    ensures Stock(b, now) >= 1.0 <==> b.tokens + Earned(Pace(b, now), now - b.last) >= 1.0
  {
    hide Earned, Pace;
  }

  lemma Earlier(d: real, seconds: real, pace: real)
    requires pace > 0.0
    ensures d >= seconds <==> Earned(pace, d) >= Earned(pace, seconds)
  {
    if d >= seconds {
      EarnedGrows(pace, seconds, d);
    } else {
      assert d + (seconds - d) == seconds;
      EarnedSplit(pace, d, seconds - d);
      EarnedPositive(pace, seconds - d);
    }
    hide Earned;
  }

  lemma EarnedPositive(rho: real, d: real)
    requires rho > 0.0 && d > 0.0
    ensures Earned(rho, d) > 0.0
  {
  }

  lemma Quotients(short: real, pace: real)
    requires pace > 0.0 && short <= 1.0
    ensures short / pace <= 1.0 / pace && Earned(pace, short / pace) == short
  {
    var q := short / pace;
    assert q * pace == short;
    Swapped(q, pace);
    assert (1.0 / pace - q) * pace == 1.0 - short;
  }

  /** Until the cooldown is over everybody is told the time that is left; then the first one passes, even if
      the stock was empty, and the rest of a crowd waits. */
  lemma CooldownHolds(b: Bucket, now: real, seconds: real, t: real, n: nat)
    requires Sound(b) && seconds > 0.0
    ensures var after := Throttled(b, now, seconds);
      var end := if b.blockUntil <= now + seconds then now + seconds else b.blockUntil;
      && (t < end ==> Try(after, t) == (after, Wait(end - t)))
      && GrantCount(after, Crowd(end, n)) == (if n == 0 then 0 else 1)
  {
    var after := Throttled(b, now, seconds);
    var end := if b.blockUntil <= now + seconds then now + seconds else b.blockUntil;
    NothingEarned(after, end);
    CrowdPassesStock(after, end, n);
  }

  /** While a slow period lasts no window grants more than the burst and half the rate; after it the rate is
      the old one. */
  lemma SlowPeriodHalves(b: Bucket, now: real, seconds: real, events: seq<Event>, to: real)
    requires InStep(b, now) && seconds > 0.0 && to < now + seconds && Ordered(events, now, to)
    ensures var after := Slowed(b, now, seconds);
      && GrantCount(after, events) as real
           <= b.burst + b.rate / 2.0 * (to - now) + ShortCount(after, events, b.rate / 2.0) as real
      && (forall t :: now + seconds <= t && b.slowUntil <= t ==> Pace(after, t) == b.rate)
      && (forall t :: t < now + seconds || t < b.slowUntil ==> Pace(after, t) == b.rate / 2.0)
  {
    hide GrantCount, ShortCount, Ordered;
    var after := Slowed(b, now, seconds);
    WindowBound(after, events, now, to, b.rate / 2.0);
  }

  /** Waiting for as long as it takes to earn the burst restores it. */
  lemma IdleRestoresBurst(b: Bucket, now: real, n: nat)
    requires Sound(b) && b.blockUntil <= now && b.last <= now && b.burst <= Earned(Pace(b, now), now - b.last)
    requires n as real <= b.burst
    ensures GrantCount(b, Crowd(now, n)) == n
  {
    FullStock(b, now);
    CrowdPassesStock(b, now, n);
    hide Stock, Pace, Crowd, GrantCount;
  }

  lemma FullStock(b: Bucket, now: real)
    requires Sound(b) && b.burst <= Earned(Pace(b, now), now - b.last)
    ensures Stock(b, now) == b.burst
  {
    hide Pace, Earned;
  }
}
