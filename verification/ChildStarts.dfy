/**
When children are started, as opposed to when restarts are asked for.  A supervisor does one thing
after another: the child of an accepted request is started after the state was saved and the old
child has ended, and before the supervisor's next event.  Hence a cooldown is whole between starts
as well, and only the window is shorter than for requests.
*/
module ChildStarts {
  import opened RestartBreaker

  type History = seq<(real, Event)>

  function At(events: History, i: nat): Life
    requires i <= |events|
  {
    Run(BIRTH, events[..i])
  }

  /** Event `i` is an accepted request, and the child it leads to is started at the given time. */
  predicate BeganAt(events: History, i: nat, start: real, lag: real) {
    && i < |events| && events[i].1.Ask? && Starts(At(events, i), events[i].0, events[i].1)
    && events[i].0 <= events[i].1.later <= start <= events[i].0 + lag
    && (i + 1 < |events| ==> start <= events[i + 1].0)
  }

  ghost predicate Began(events: History, at: seq<nat>, starts: seq<real>, lag: real) {
    && |starts| == |at| && (forall n :: 0 <= n < |at| ==> BeganAt(events, at[n], starts[n], lag))
    && (forall n, k :: 0 <= n < k < |at| ==> at[n] < at[k])
  }

  // ---------------------------------------------------------------- the clock

  lemma OneStep(events: History, i: nat)
    requires i < |events|
    ensures At(events, i + 1) == Live(At(events, i), events[i].0, events[i].1)
    ensures TimelyAll(BIRTH, events) ==> Timely(At(events, i), events[i].0, events[i].1)
  {
    hide Live, Timely;
    assert events[..i + 1][..i] == events[..i];
  }

  lemma ClockMoves(l: Life, now: real, e: Event)
    requires Timely(l, now, e)
    ensures l.clock <= now <= Live(l, now, e).clock
  {
  }

  lemma {:induction false} ClockAfter(events: History, i: nat, j: nat)
    requires TimelyAll(BIRTH, events) && i < j <= |events|
    ensures 0.0 <= events[i].0 <= At(events, j).clock
  {
    hide Live, Timely, TimelyAll, Run;
    OneStep(events, j - 1);
    ClockMoves(At(events, j - 1), events[j - 1].0, events[j - 1].1);
    ClockStart(events, j - 1);
    if i < j - 1 { ClockAfter(events, i, j - 1); }
  }

  lemma {:induction false} ClockStart(events: History, i: nat)
    requires TimelyAll(BIRTH, events) && i <= |events|
    ensures 0.0 <= At(events, i).clock
  {
    hide Live, Timely, TimelyAll;
    if i > 0 {
      OneStep(events, i - 1);
      ClockMoves(At(events, i - 1), events[i - 1].0, events[i - 1].1);
      ClockStart(events, i - 1);
    }
  }

  lemma InOrder(events: History, i: nat, j: nat)
    requires TimelyAll(BIRTH, events) && i <= j < |events|
    ensures 0.0 <= events[i].0 <= events[j].0
  {
    hide Live, TimelyAll, Run;
    ClockAfter(events, i, i + 1);
    if i < j {
      ClockAfter(events, i, j);
      OneStep(events, j);
    }
  }

  lemma TimelyPrefix(events: History, i: nat)
    requires TimelyAll(BIRTH, events) && i <= |events|
    ensures TimelyAll(BIRTH, events[..i])
  {
    hide Run, Timely;
    forall n | 0 <= n < i ensures Timely(Run(BIRTH, events[..i][..n]), events[..i][n].0, events[..i][n].1) {
      assert events[..i][..n] == events[..n];
    }
  }

  // ---------------------------------------------------------------- after a storm

  predicate StormsAt(events: History, i: nat) {
    && i < |events| && events[i].1.Ask? && At(events, i).memory.Some?
    && Request(At(events, i).memory.value, events[i].0).1.Storm?
  }

  lemma EndMoves(l: Life, now: real, e: Event)
    ensures Live(l, now, e).end == l.end || Live(l, now, e).end == now + COOLDOWN
    ensures e.Ask? && l.memory.Some? && Request(l.memory.value, now).1.Storm? ==> Live(l, now, e).end == now + COOLDOWN
  {
  }

  lemma {:induction false} EndAfter(events: History, s: nat, j: nat)
    requires TimelyAll(BIRTH, events) && StormsAt(events, s) && s < j <= |events|
    ensures At(events, j).end >= events[s].0 + COOLDOWN
  {
    hide Live, TimelyAll, Run, Request;
    OneStep(events, j - 1);
    EndMoves(At(events, j - 1), events[j - 1].0, events[j - 1].1);
    if s < j - 1 {
      EndAfter(events, s, j - 1);
      InOrder(events, s, j - 1);
    }
  }

  /** No request is let through before the cooldown of an earlier storm is over. */
  lemma StormThenCooldown(events: History, s: nat, j: nat)
    requires TimelyAll(BIRTH, events) && StormsAt(events, s) && s < j < |events| && events[j].1.Ask?
    requires Starts(At(events, j), events[j].0, events[j].1)
    ensures events[j].0 >= events[s].0 + COOLDOWN
  {
    hide Live, TimelyAll, Run, Request;
    EndAfter(events, s, j);
    OneStep(events, j);
    TimelyPrefix(events, j);
    NoStartInCooldown(events[..j], events[j].0, events[j].1);
  }

  // ---------------------------------------------------------------- a storm between four requests

  /** The events from `from` to `to`. */
  function Stretch(events: History, from: nat, to: nat): History
    requires from <= to <= |events|
  {
    events[from..to]
  }

  lemma {:induction false} StretchRuns(events: History, from: nat, to: nat)
    requires from <= to <= |events|
    ensures Run(At(events, from), Stretch(events, from, to)) == At(events, to)
  {
    hide Live;
    if from < to {
      StretchRuns(events, from, to - 1);
      OneStep(events, to - 1);
      assert Stretch(events, from, to)[..to - 1 - from] == Stretch(events, from, to - 1);
    }
  }

  /** The requests of a stretch, counted. */
  lemma {:induction false} AskedCount(events: History, from: nat, to: nat, i: nat)
    requires from <= i < to <= |events| && events[i].1.Ask? && At(events, i).memory.Some?
    ensures |Asked(At(events, from), Stretch(events, from, to))| > |Asked(At(events, from), Stretch(events, from, i))|
    ensures events[i].0 in Asked(At(events, from), Stretch(events, from, to))
  {
    hide Run;
    var n := to - 1 - from;
    assert Stretch(events, from, to)[..n] == Stretch(events, from, to - 1);
    StretchRuns(events, from, to - 1);
    if i < to - 1 { AskedCount(events, from, to - 1, i); }
  }

  lemma {:induction false} AskedWithin(events: History, from: nat, to: nat, t: real)
    requires TimelyAll(BIRTH, events) && from <= to < |events|
    requires t in Asked(At(events, from), Stretch(events, from, to))
    ensures events[from].0 <= t <= events[to].0
  {
    hide Run, TimelyAll;
    var n := to - 1 - from;
    if from < to {
      assert Stretch(events, from, to)[..n] == Stretch(events, from, to - 1);
      InOrder(events, from, to - 1);
      InOrder(events, to - 1, to);
      if t in Asked(At(events, from), Stretch(events, from, to - 1)) { AskedWithin(events, from, to - 1, t); }
    }
  }

  /** Without a storm, every request after an accepted one is let through. */
  lemma {:induction false} CalmIsUntripped(events: History, from: nat, to: nat)
    requires TimelyAll(BIRTH, events) && from < to < |events| && events[to].0 - events[from].0 < RESTART_WINDOW
    requires events[from].1.Ask? && Starts(At(events, from), events[from].0, events[from].1)
    requires forall s :: from < s < to ==> !StormsAt(events, s)
    ensures Untripped(At(events, from), Stretch(events, from, to))
  {
    hide Run, TimelyAll, Asked, Live;
    var l := At(events, from);
    forall n | 0 <= n < to - from && Stretch(events, from, to)[n].1.Ask?
        && Run(l, Stretch(events, from, to)[..n]).memory.Some?
      ensures Request(Run(l, Stretch(events, from, to)[..n]).memory.value, Stretch(events, from, to)[n].0).1.Accepted?
    {
      var k := from + n;
      assert Stretch(events, from, to)[..n] == Stretch(events, from, k);
      StretchRuns(events, from, k);
      if n > 0 {
        InOrder(events, k, to);
        InOrder(events, from, k);
        CalmIsUntripped(events, from, k);
        CalmCarries(events, from, k);
        assert !StormsAt(events, k);
      }
    }
  }

  /** An untripped stretch remembers its requests and has no cooldown. */
  lemma CalmCarries(events: History, from: nat, to: nat)
    requires TimelyAll(BIRTH, events) && from < to < |events| && events[to].0 - events[from].0 < RESTART_WINDOW
    requires events[from].1.Ask? && At(events, from).memory.Some?
    requires Untripped(At(events, from), Stretch(events, from, to))
    ensures At(events, to).memory.Some? ==> At(events, to).memory.value.cooldownUntil == 0.0
    ensures 0.0 <= events[to].0
  {
    hide Run, TimelyAll, Asked, Live, Untripped;
    var l, part := At(events, from), Stretch(events, from, to);
    StretchRuns(events, from, to);
    AskedCount(events, from, to, from);
    StretchInOrder(events, from, to);
    RunCarries(l, part, events[to].0);
  }

  lemma StretchInOrder(events: History, from: nat, to: nat)
    requires TimelyAll(BIRTH, events) && from <= to < |events| && events[to].0 - events[from].0 < RESTART_WINDOW
    ensures 0.0 <= events[to].0
    ensures forall n :: 0 <= n < to - from ==> 0.0 <= Stretch(events, from, to)[n].0 <= events[to].0
    ensures forall t :: t in Asked(At(events, from), Stretch(events, from, to)) ==> events[to].0 - t < RESTART_WINDOW
  {
    hide Run, TimelyAll, Asked;
    InOrder(events, to, to);
    forall n | 0 <= n < to - from ensures 0.0 <= Stretch(events, from, to)[n].0 <= events[to].0 {
      InOrder(events, from + n, to);
    }
    forall t | t in Asked(At(events, from), Stretch(events, from, to)) ensures events[to].0 - t < RESTART_WINDOW {
      AskedWithin(events, from, to, t);
    }
  }

  /** Four accepted requests within the window have a storm between the first and the last. */
  lemma StormBetween(events: History, i: nat, j: nat, k: nat, m: nat) returns (s: nat)
    requires TimelyAll(BIRTH, events) && i < j < k < m < |events| && events[m].0 - events[i].0 < RESTART_WINDOW
    requires forall n :: n in {i, j, k, m} ==> events[n].1.Ask? && Starts(At(events, n), events[n].0, events[n].1)
    ensures i < s < m && StormsAt(events, s)
  {
    hide Run, TimelyAll, Asked, Live, Untripped;
    if forall s :: i < s < m ==> !StormsAt(events, s) {
      var l, part := At(events, i), Stretch(events, i, m);
      CalmIsUntripped(events, i, m);
      StretchRuns(events, i, m);
      StretchInOrder(events, i, m);
      AskedCount(events, i, m, k);
      AskedCount(events, i, k, j);
      AskedCount(events, i, j, i);
      FourthRequestCools(l, part, events[m].0, events[m].0);
      assert false;
    } else {
      s :| i < s < m && StormsAt(events, s);
    }
  }

  // ---------------------------------------------------------------- the theorem

  /** Any four starts within the window less the lag have a whole cooldown between two neighbours. */
  lemma StartsKeepTheCooldown(events: History, at: seq<nat>, starts: seq<real>, lag: real)
    requires TimelyAll(BIRTH, events) && |starts| == 4 && Began(events, at, starts, lag)
    requires starts[3] - starts[0] < RESTART_WINDOW - lag
    ensures exists n: nat :: n < 3 && StartGap(starts, n, 0.0)
  {
    hide Run, TimelyAll, Live, StormsAt;
    assert forall n :: 0 <= n < 4 ==> BeganAt(events, at[n], starts[n], lag);
    assert at[0] < at[1] < at[2] < at[3];
    var s := StormBetween(events, at[0], at[1], at[2], at[3]);
    assert s != at[1] && s != at[2] by { StormStartsNothing(events, s); }
    var n: nat := if s < at[1] then 0 else if s < at[2] then 1 else 2;
    StormThenCooldown(events, s, at[n + 1]);
    InOrder(events, at[n] + 1, s);
    assert StartGap(starts, n, 0.0);
  }

  lemma StormStartsNothing(events: History, s: nat)
    requires StormsAt(events, s)
    ensures !Starts(At(events, s), events[s].0, events[s].1)
  {
    hide Request;
  }

  /** In every history, four starts closer than `window` have a whole cooldown between two neighbours. */
  ghost predicate SpreadWithin(lag: real, window: real) {
    forall events, at, starts ::
      TimelyAll(BIRTH, events) && |starts| == 4 && Began(events, at, starts, lag) && starts[3] - starts[0] < window ==>
        exists n: nat :: n < 3 && StartGap(starts, n, 0.0)
  }

  /** The window in which starts are spread is the one of the requests less the lag, and no longer. */
  lemma CooldownBetweenStartsIff(lag: real, window: real)
    requires 0.0 <= lag
    ensures SpreadWithin(lag, window) <==> window <= RESTART_WINDOW - lag || window <= 0.0
  {
    hide Run, TimelyAll, Began;
    if window <= RESTART_WINDOW - lag || window <= 0.0 {
      forall events, at, starts | TimelyAll(BIRTH, events) && |starts| == 4 && Began(events, at, starts, lag)
          && starts[3] - starts[0] < window
        ensures exists n: nat :: n < 3 && StartGap(starts, n, 0.0)
      {
        BeganInOrder(events, at, starts, lag);
        StartsKeepTheCooldown(events, at, starts, lag);
      }
    } else {
      var short := if lag < RESTART_WINDOW then lag else Closer(window);
      var events, starts := LaggingStartsCrowd(short);
      CrowdBegan(short, lag);
      assert forall n: nat :: n < 3 ==> !StartGap(starts, n, 0.0);
    }
  }

  /** A lag within the window that leaves less than the given time. */
  function Closer(window: real): (lag: real)
    requires window > 0.0
    ensures 0.0 <= lag < RESTART_WINDOW && RESTART_WINDOW - lag < window
  {
    if window > RESTART_WINDOW then 1.0 else RESTART_WINDOW - window / 2.0
  }

  lemma BeganInOrder(events: History, at: seq<nat>, starts: seq<real>, lag: real)
    requires TimelyAll(BIRTH, events) && |starts| == 4 && Began(events, at, starts, lag)
    ensures starts[0] <= starts[3]
  {
    hide Run, TimelyAll, Starts;
    assert BeganAt(events, at[0], starts[0], lag) && BeganAt(events, at[3], starts[3], lag) && at[0] < at[3];
    InOrder(events, at[0] + 1, at[3]);
  }

  lemma CrowdBegan(short: real, lag: real)
    requires 0.0 <= short < RESTART_WINDOW && short <= lag
    ensures Began(FourRequests(EvenTimes(short)), [1, 2, 3, 4], EvenTimes(short)[0 := 1.0 + short], lag)
  {
    hide Run, TimelyAll, Starts;
    FourAccepted(EvenTimes(short));
  }
}
