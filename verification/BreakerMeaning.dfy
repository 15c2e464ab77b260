/**
The restart breaker in plain numbers: three restarts within 62 minutes, then half an hour of pause; what
a request, a check, a save and a load make of the state.
*/
module BreakerMeaning {
  import opened Wrappers
  import opened RestartBreaker

  /** The requests of the last 3720 seconds. */
  function Counting(times: seq<real>, now: real): set<int> {
    set i | 0 <= i < |times| && now < times[i] + 3720.0
  }

  /** `kept` are the requests that still count, in the order in which they were made. */
  ghost predicate Keeps(times: seq<real>, kept: seq<real>, now: real) {
    exists places: seq<int> :: KeptAt(times, kept, now, places)
  }

  ghost predicate KeptAt(times: seq<real>, kept: seq<real>, now: real, places: seq<int>) {
    && |places| == |kept| && (forall m, n :: 0 <= m < n < |places| ==> places[m] < places[n])
    && (forall i :: i in places <==> i in Counting(times, now))
    && (forall k :: 0 <= k < |places| && 0 <= places[k] < |times| ==> kept[k] == times[places[k]])
  }

  lemma {:induction false} RecentIs(times: seq<real>, now: real) returns (places: seq<int>)
    ensures KeptAt(times, Recent(times, now), now, places)
    ensures |Recent(times, now)| == |Counting(times, now)|
  {
    hide KeptAt;
    if times == [] {
      places := [];
      NothingKept(now);
    } else {
      var n := |times| - 1;
      var before := RecentIs(times[..n], now);
      CountingNext(times, now);
      KeptNext(times, now, before);
      places := if now < times[n] + 3720.0 then before + [n] else before;
    }
  }

  lemma NothingKept(now: real)
    ensures Counting([], now) == {} && KeptAt([], [], now, [])
  {
  }

  lemma CountingNext(times: seq<real>, now: real)
    requires times != []
    ensures var n := |times| - 1;
      && n !in Counting(times[..n], now)
      && Counting(times, now) == Counting(times[..n], now) + if now < times[n] + 3720.0 then {n} else {}
  {
  }

  lemma {:induction false} KeptNext(times: seq<real>, now: real, before: seq<int>)
    requires times != [] && KeptAt(times[..|times| - 1], Recent(times[..|times| - 1], now), now, before)
    ensures KeptAt(times, Recent(times, now), now,
                   if now < times[|times| - 1] + 3720.0 then before + [|times| - 1] else before)
  {
    var n := |times| - 1;
    var counts := now < times[n] + 3720.0;
    var kept := Recent(times[..n], now);
    RecentLast(times, now);
    hide Recent, Counting, KeptAt;
    CountingNext(times, now);
    KeptFacts(times, kept, now, before);
    if counts { KeptMore(times, kept, now, before); } else { KeptSame(times, kept, now, before); }
  }

  lemma {:induction false} RecentLast(times: seq<real>, now: real)
    requires times != []
    ensures var n := |times| - 1;
      Recent(times, now)
        == if now < times[n] + 3720.0 then Recent(times[..n], now) + [times[n]] else Recent(times[..n], now)
  {
    var kept := Recent(times[..|times| - 1], now);
    assert kept + [] == kept;
  }

  lemma KeptFacts(times: seq<real>, kept: seq<real>, now: real, before: seq<int>)
    requires times != [] && KeptAt(times[..|times| - 1], kept, now, before)
    ensures |before| == |kept| && forall m, n :: 0 <= m < n < |before| ==> before[m] < before[n]
    ensures forall k :: 0 <= k < |before| ==> 0 <= before[k] < |times| - 1 && kept[k] == times[before[k]]
    ensures forall i :: i in before <==> i in Counting(times[..|times| - 1], now)
  {
    forall k | 0 <= k < |before| ensures 0 <= before[k] < |times| - 1 && kept[k] == times[before[k]] {
      assert before[k] in before && before[k] in Counting(times[..|times| - 1], now);
    }
  }

  lemma KeptSame(times: seq<real>, kept: seq<real>, now: real, before: seq<int>)
    requires times != [] && |before| == |kept| && forall m, n :: 0 <= m < n < |before| ==> before[m] < before[n]
    requires forall k :: 0 <= k < |before| ==> 0 <= before[k] < |times| - 1 && kept[k] == times[before[k]]
    requires forall i :: i in Counting(times, now) <==> i in before
    ensures KeptAt(times, kept, now, before)
  {
    hide Counting;
  }

  lemma KeptMore(times: seq<real>, kept: seq<real>, now: real, before: seq<int>)
    requires times != [] && |before| == |kept| && forall m, n :: 0 <= m < n < |before| ==> before[m] < before[n]
    requires forall k :: 0 <= k < |before| ==> 0 <= before[k] < |times| - 1 && kept[k] == times[before[k]]
    requires forall i :: i in Counting(times, now) <==> i in before || i == |times| - 1
    ensures KeptAt(times, kept + [times[|times| - 1]], now, before + [|times| - 1])
  {
    hide Counting;
    var n := |times| - 1;
    var places := before + [n];
    forall i ensures i in places <==> i in before || i == n { assert places[|before|] == n; }
  }

  /** A state that the supervisor can be in: no cooldown is written as zero. */
  predicate Proper(m: Memory) { m.cooldownUntil >= 0.0 }

  /** What a request meets: a pause, a list that was closed by a pause, or its own list. */
  lemma RequestIff(m: Memory, now: real)
    requires Proper(m) && now >= 0.0
    ensures var (next, verdict) := Request(m, now);
      var recent := if m.cooldownUntil > 0.0 then 0 else |Counting(m.restarts, now)|;
      && (verdict == Refused <==> now < m.cooldownUntil)
      && (verdict == Storm <==> now >= m.cooldownUntil && recent >= 3)
      && (verdict == Refused ==> next == m)
      && (verdict == Storm ==> next.cooldownUntil == now + 1800.0)
      && (verdict == Accepted ==> next.cooldownUntil == 0.0)
      && (verdict != Refused ==>
            |next.restarts| == recent + 1 && next.restarts[recent] == now
            && (m.cooldownUntil == 0.0 ==> Keeps(m.restarts, next.restarts[..recent], now)))
  {
    hide Recent, Counting, KeptAt;
    var places := RecentIs(m.restarts, now);
    var kept := Recent(m.restarts, now);
    assert (kept + [now])[..|kept|] == kept;
  }

  /** A check without a request: a finished pause takes the list with it, otherwise old requests are dropped. */
  lemma PruneIff(m: Memory, now: real)
    requires Proper(m) && now >= 0.0
    ensures var next := Prune(m, now);
      && (now < m.cooldownUntil ==> next == m)
      && (0.0 < m.cooldownUntil <= now ==> next == Memory([], 0.0))
      && (m.cooldownUntil == 0.0 ==> next.cooldownUntil == 0.0 && Keeps(m.restarts, next.restarts, now))
  {
    hide Recent, KeptAt;
    var places := RecentIs(m.restarts, now);
  }

  /** The file keeps the list and the pause that is still running; reading it back at a later time cuts an
      overlong pause to half an hour from then and forgets what belongs to a finished one. */
  lemma FileIff(m: Memory, saved: real, f: Saved, now: real)
    requires Proper(m) && saved >= 0.0 && f.cooldownUntil >= 0.0
    ensures var g := Save(m, saved);
      && g.restarts == m.restarts
      && g.cooldownUntil == (if m.cooldownUntil > saved then m.cooldownUntil else 0.0)
    ensures var l := Load(f, now);
      && (now < f.cooldownUntil ==>
            l.cooldownUntil == (if f.cooldownUntil <= now + 1800.0 then f.cooldownUntil else now + 1800.0))
      && (0.0 < f.cooldownUntil <= now ==> l == Memory([], 0.0))
      && (f.cooldownUntil == 0.0 ==> l.cooldownUntil == 0.0 || now < 0.0)
      && (f.cooldownUntil == 0.0 || now < f.cooldownUntil ==> Keeps(f.restarts, l.restarts, now))
  {
    hide Recent, KeptAt;
    var places := RecentIs(f.restarts, now);
  }

  // ---------------------------------------------------------------- requests that are sparse enough

  /** Requests at these times, each saved at once. */
  function Requests(times: seq<real>): (events: seq<(real, Event)>)
    ensures |events| == |times| && forall i :: 0 <= i < |times| ==> events[i] == (times[i], Ask(times[i]))
  {
    seq(|times|, i requires 0 <= i < |times| => (times[i], Ask(times[i])))
  }

  /** In order, and never four within 62 minutes. */
  ghost predicate Sparse(times: seq<real>) {
    && Sorted(times) && forall i :: 3 <= i < |times| ==> times[i - 3] + 3720.0 <= times[i]
  }

  lemma FewAreRecent(times: seq<real>, restarts: seq<real>, now: real)
    requires Sorted(times) && multiset(restarts) <= multiset(times)
    requires |times| >= 3 ==> times[|times| - 3] + 3720.0 <= now
    ensures |Recent(restarts, now)| < 3
    ensures multiset(Recent(restarts, now)) <= multiset(times)
  {
    hide Recent;
    RecentIncluded(restarts, times, now);
    var k := RecentIsSuffix(times, now);
    ShortSuffix(times, k, now);
    SuffixIncluded(times, k);
    SmallerMultiset(multiset(Recent(restarts, now)), multiset(times[k..]));
    assert |multiset(Recent(restarts, now))| == |Recent(restarts, now)|;
  }

  lemma SuffixIncluded(times: seq<real>, k: nat)
    requires k <= |times|
    ensures multiset(times[k..]) <= multiset(times) && |multiset(times[k..])| == |times| - k
  {
    assert times == times[..k] + times[k..];
  }

  lemma ShortSuffix(times: seq<real>, k: nat, now: real)
    requires k <= |times| && Recent(times, now) == times[k..]
    requires |times| >= 3 ==> times[|times| - 3] + 3720.0 <= now
    ensures |times| - k < 3
  {
    hide Recent;
    if |times| >= 3 && k <= |times| - 3 {
      assert times[k..][|times| - 3 - k] == times[|times| - 3];
      RecentAreRecent(times, now, times[|times| - 3]);
    }
  }

  lemma {:induction false} RecentAreRecent(times: seq<real>, now: real, t: real)
    requires t in Recent(times, now)
    ensures now - t < RESTART_WINDOW
  {
    if t in Recent(times[..|times| - 1], now) { RecentAreRecent(times[..|times| - 1], now, t); }
  }

  /** Whatever came before, a supervisor with an empty list lets every request of a sparse row through. */
  lemma {:induction false} SparseRequestsPass(l: Life, times: seq<real>)
    requires l.memory == Some(Memory([], 0.0)) && l.clock >= 0.0 && Sparse(times)
    requires forall i :: 0 <= i < |times| ==> l.clock <= times[i]
    ensures TimelyAll(l, Requests(times)) && Run(l, Requests(times)).accepted == l.accepted + times
    ensures var after := Run(l, Requests(times));
      && after.memory.Some? && after.memory.value.cooldownUntil == 0.0
      && multiset(after.memory.value.restarts) <= multiset(times)
      && after.clock == if times == [] then l.clock else times[|times| - 1]
  {
    hide Recent, Live, Sparse, TimelyAll;
    if times != [] {
      var n := |times| - 1;
      SparseSmaller(times);
      SparseRequestsPass(l, times[..n]);
      var before := Run(l, Requests(times[..n]));
      assert times[..n] != [] ==> before.clock == times[n - 1] && times[n - 1] <= times[n];
      FewAreRecent(times[..n], before.memory.value.restarts, times[n]);
      OnePasses(before, times[n], times[..n]);
      RequestsNext(l, times);
      assert times[..n] + [times[n]] == times;
      assert l.accepted + times[..n] + [times[n]] == l.accepted + times;
    } else {
      NothingAsked(l);
    }
  }

  lemma NothingAsked(l: Life)
    ensures Requests([]) == [] && TimelyAll(l, Requests([])) && l.accepted + [] == l.accepted
  {
  }

  lemma SparseSmaller(times: seq<real>)
    requires Sparse(times) && times != []
    ensures Sparse(times[..|times| - 1]) && Sorted(times[..|times| - 1])
    ensures |times| > 1 ==> times[|times| - 2] <= times[|times| - 1]
    ensures |times| > 3 ==> times[..|times| - 1][|times| - 4] + 3720.0 <= times[|times| - 1]
  {
    assert |times| > 3 ==> times[|times| - 1 - 3] + 3720.0 <= times[|times| - 1];
  }

  lemma RequestsNext(l: Life, times: seq<real>)
    requires times != [] && TimelyAll(l, Requests(times[..|times| - 1]))
    requires Run(l, Requests(times[..|times| - 1])).clock <= times[|times| - 1]
    ensures var now, before := times[|times| - 1], Run(l, Requests(times[..|times| - 1]));
      Run(l, Requests(times)) == Live(before, now, Ask(now)) && TimelyAll(l, Requests(times))
  {
    hide Live;
    var n, events := |times| - 1, Requests(times);
    assert events[..n] == Requests(times[..n]);
    forall k | 0 <= k < |events| ensures Timely(Run(l, events[..k]), events[k].0, events[k].1) {
      if k < n {
        assert events[..n][..k] == events[..k];
        assert Timely(Run(l, events[..n][..k]), events[..n][k].0, events[..n][k].1);
      }
    }
  }

  lemma OnePasses(l: Life, now: real, times: seq<real>)
    requires l.memory.Some? && l.memory.value.cooldownUntil == 0.0 && 0.0 <= now && l.clock <= now
    requires |Recent(l.memory.value.restarts, now)| < 3
    requires multiset(Recent(l.memory.value.restarts, now)) <= multiset(times)
    ensures var next := Live(l, now, Ask(now));
      && next.accepted == l.accepted + [now] && next.clock == now && next.memory.Some?
      && next.memory.value.cooldownUntil == 0.0 && multiset(next.memory.value.restarts) <= multiset(times + [now])
  {
    hide Recent;
    var kept := Recent(l.memory.value.restarts, now);
    assert multiset(kept + [now]) == multiset(kept) + multiset{now};
    assert multiset(times + [now]) == multiset(times) + multiset{now};
  }
}
