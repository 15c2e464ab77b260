/**
`crawl_model`: the vehicles of one model are handed to a worker pool, a bounded number at a time.
Which futures complete together, in which order, how each ends and which can still be cancelled is
decided by the environment.
*/
module Dispatch {
  import opened Wrappers
  import opened LinkMeaning

  datatype Vehicle = Vehicle(key: string, endYear: Option<int>)

  /** How the work on one vehicle ends: normally, with an error, or because the part limit is reached. */
  datatype Ending = Finished | Broke | LimitReached

  datatype Mark = Done(vehicle: nat) | Error(vehicle: nat)

  datatype Outcome = Returned(failed: nat) | Stopped

  function Cap(partLimit: nat, workers: int): (cap: nat)
    ensures partLimit > 0 ==> cap == 1
    ensures partLimit == 0 ==> cap >= 2 && cap >= 2 * workers && (cap == 2 || cap == 2 * workers)
  {
    if partLimit > 0 then 1 else if workers * 2 > 2 then workers * 2 else 2
  }

  function MaxFail(pending: nat): nat { if pending / 2 > 3 then pending / 2 else 3 }

  // ---------------------------------------------------------------- what is pending

  predicate BelowFloor(v: Vehicle, floor: int) { floor > 0 && v.endYear.Some? && v.endYear.value < floor }

  /** No vehicle key is listed twice. */
  predicate AllDifferent(keys: seq<string>) {
    forall i, j :: 0 <= i < j < |keys| ==> keys[i] != keys[j]
  }

  function Keys(vehicles: seq<Vehicle>): (keys: seq<string>)
    ensures |keys| == |vehicles| && forall i :: 0 <= i < |keys| ==> keys[i] == vehicles[i].key
  {
    seq(|vehicles|, i requires 0 <= i < |vehicles| => vehicles[i].key)
  }

  /** In order, exactly the vehicles in front of the limit that are not done and whose production did
      not end before the floor. */
  ghost predicate InLine(vehicles: seq<Vehicle>, done: set<string>, limit: nat, floor: int, pending: seq<string>) {
    exists places: seq<int> :: TakenFrom(vehicles, done, limit, floor, pending, places)
  }

  ghost predicate TakenFrom(vehicles: seq<Vehicle>, done: set<string>, limit: nat, floor: int, pending: seq<string>,
                            places: seq<int>) {
    && Increasing(places) && |places| == |pending|
    && (forall k :: 0 <= k < |places| ==>
         0 <= places[k] < |vehicles| && pending[k] == vehicles[places[k]].key)
    && forall i :: i in places <==>
         && 0 <= i < |vehicles| && (limit == 0 || i < limit)
         && vehicles[i].key !in done
         && (floor > 0 && vehicles[i].endYear.Some? ==> vehicles[i].endYear.value >= floor)
  }

  lemma TakenNothing(done: set<string>, floor: int)
    ensures TakenFrom([], done, 0, floor, [], [])
  {
  }

  lemma TakenNext(before: seq<Vehicle>, v: Vehicle, done: set<string>, floor: int, pending: seq<string>,
                  places: seq<int>)
    requires TakenFrom(before, done, 0, floor, pending, places)
    ensures v.key in done || BelowFloor(v, floor) ==> TakenFrom(before + [v], done, 0, floor, pending, places)
    ensures v.key !in done && !BelowFloor(v, floor) ==>
      TakenFrom(before + [v], done, 0, floor, pending + [v.key], places + [|before|])
  {
    assert forall k :: 0 <= k < |places| ==> places[k] in places;
    assert forall p :: p in places + [|before|] <==> p in places || p == |before|;
  }

  lemma TakenWithin(vehicles: seq<Vehicle>, done: set<string>, limit: nat, floor: int, pending: seq<string>,
                    places: seq<int>)
    requires TakenFrom(vehicles[..if 0 < limit < |vehicles| then limit else |vehicles|], done, 0, floor, pending,
                       places)
    ensures InLine(vehicles, done, limit, floor, pending) && |pending| <= |vehicles|
    ensures AllDifferent(Keys(vehicles)) ==> AllDifferent(pending)
    ensures forall key :: key in pending ==>
      key !in done && exists v :: v in vehicles && v.key == key && !BelowFloor(v, floor)
    ensures forall j :: 0 <= j < |vehicles| && (limit == 0 || j < limit) ==>
      vehicles[j].key in done || BelowFloor(vehicles[j], floor) || vehicles[j].key in pending
  {
    assert TakenFrom(vehicles, done, limit, floor, pending, places);
    forall k | 0 <= k < |pending|
      ensures pending[k] !in done && exists v :: v in vehicles && v.key == pending[k] && !BelowFloor(v, floor)
    {
      assert places[k] in places && vehicles[places[k]] in vehicles;
    }
    forall j | 0 <= j < |vehicles| && (limit == 0 || j < limit)
      ensures vehicles[j].key in done || BelowFloor(vehicles[j], floor) || vehicles[j].key in pending
    {
      if vehicles[j].key !in done && !BelowFloor(vehicles[j], floor) {
        assert j in places;
        var k :| 0 <= k < |places| && places[k] == j;
        assert pending[k] in pending;
      }
    }
    InOrder(|vehicles|, places, 0);
    if AllDifferent(Keys(vehicles)) {
      forall i, j | 0 <= i < j < |pending| ensures pending[i] != pending[j] {
        assert Keys(vehicles)[places[i]] != Keys(vehicles)[places[j]];
      }
    }
  }

  /** Increasing numbers below a bound are at most as many as the bound. */
  lemma {:induction false} InOrder(bound: nat, places: seq<int>, k: nat)
    requires Increasing(places) && (forall p :: p in places ==> 0 <= p < bound) && k <= |places|
    requires k == 0 || places[k - 1] >= k - 1
    ensures |places| <= bound
    decreases |places| - k
  {
    if k < |places| {
      assert places[k] in places && (k > 0 ==> places[k - 1] < places[k]);
      InOrder(bound, places, k + 1);
    } else if k > 0 {
      assert places[k - 1] in places;
    }
  }

  /** The vehicles in front of the limit that are neither done nor below the year floor, in order. */
  method Plan(vehicles: seq<Vehicle>, done: set<string>, limit: nat, floor: int)
      returns (pending: seq<string>, truncated: nat)
    ensures truncated == if 0 < limit < |vehicles| then |vehicles| - limit else 0
    ensures InLine(vehicles, done, limit, floor, pending)
    ensures |pending| <= |vehicles|
    ensures AllDifferent(Keys(vehicles)) ==> AllDifferent(pending)
    ensures forall key :: key in pending ==>
      key !in done && exists v :: v in vehicles && v.key == key && !BelowFloor(v, floor)
    ensures forall j :: 0 <= j < |vehicles| - truncated ==>
      vehicles[j].key in done || BelowFloor(vehicles[j], floor) || vehicles[j].key in pending
  {
    truncated := 0;
    var kept := vehicles;
    if limit > 0 {
      if |vehicles| > limit { truncated := |vehicles| - limit; }
      kept := vehicles[..if limit < |vehicles| then limit else |vehicles|];
    }
    pending := [];
    ghost var places: seq<int> := [];
    hide InLine, TakenFrom, AllDifferent;
    TakenNothing(done, floor);
    for i := 0 to |kept|
      invariant TakenFrom(kept[..i], done, 0, floor, pending, places)
    {
      var v := kept[i];
      assert kept[..i + 1] == kept[..i] + [v];
      TakenNext(kept[..i], v, done, floor, pending, places);
      if v.key in done { continue; }
      if BelowFloor(v, floor) { continue; }
      pending := pending + [v.key];
      places := places + [i];
    }
    assert kept[..|kept|] == kept == vehicles[..|vehicles| - truncated];
    TakenWithin(vehicles, done, limit, floor, pending, places);
  }

  // ---------------------------------------------------------------- marks

  predicate NoRepeats(marks: seq<Mark>) {
    forall i, j :: 0 <= i < j < |marks| ==> marks[i].vehicle != marks[j].vehicle
  }

  /** No vehicle key is marked twice. */
  predicate MarkedOnce(marks: seq<Mark>, pending: seq<string>) {
    forall i, j :: 0 <= i < j < |marks| ==>
      marks[i].vehicle < |pending| && marks[j].vehicle < |pending|
      && pending[marks[i].vehicle] != pending[marks[j].vehicle]
  }

  lemma DifferentKeysMarkedOnce(marks: seq<Mark>, pending: seq<string>)
    requires NoRepeats(marks) && AllDifferent(pending) && forall m :: m in marks ==> m.vehicle < |pending|
    ensures MarkedOnce(marks, pending)
  {
    forall i, j | 0 <= i < j < |marks|
      ensures marks[i].vehicle < |pending| && marks[j].vehicle < |pending|
      ensures marks[i].vehicle < |pending| && marks[j].vehicle < |pending| ==>
        pending[marks[i].vehicle] != pending[marks[j].vehicle]
    {
      assert marks[i] in marks && marks[j] in marks;
    }
  }

  /** Every settled vehicle that ran to an ordinary end has its mark, and nothing else is marked. */
  ghost predicate Tells(marks: seq<Mark>, settled: set<nat>, ending: seq<Ending>) {
    && (forall v :: v in settled ==> v < |ending|)
    && (forall m :: m in marks ==> m.vehicle in settled)
    && (forall m :: m in marks ==> ending[m.vehicle] == if m.Done? then Finished else Broke)
    && (forall v :: v in settled && ending[v] == Finished ==> Done(v) in marks)
    && (forall v :: v in settled && ending[v] == Broke ==> Error(v) in marks)
  }

  function Errors(marks: seq<Mark>): nat {
    if marks == [] then 0 else Errors(marks[..|marks| - 1]) + if marks[|marks| - 1].Error? then 1 else 0
  }

  lemma {:induction false} ErrorCounts(marks: seq<Mark>, v: nat)
    requires Error(v) in marks
    ensures Errors(marks) > 0
  {
    var n := |marks| - 1;
    assert marks == marks[..n] + [marks[n]];
    if marks[n] != Error(v) { ErrorCounts(marks[..n], v); }
  }

  /** The vehicles marked with an error. */
  function Failed(marks: seq<Mark>): set<nat> { set m | m in marks && m.Error? :: m.vehicle }

  lemma {:induction false} ErrorsAreVehicles(marks: seq<Mark>)
    requires NoRepeats(marks)
    ensures Errors(marks) == |Failed(marks)|
  {
    var n := |marks| - 1;
    if n >= 0 {
      var before, last := marks[..n], marks[n];
      assert marks == before + [last];
      ErrorsAreVehicles(before);
      if last.Error? {
        assert forall m :: m in before ==> m.vehicle != last.vehicle;
        assert Failed(marks) == Failed(before) + {last.vehicle};
      } else {
        assert Failed(marks) == Failed(before);
      }
    }
  }

  function MarkOf(v: nat, e: Ending): seq<Mark> {
    match e
    case Finished => [Done(v)]
    case Broke => [Error(v)]
    case LimitReached => []
  }

  lemma Append(marks: seq<Mark>, settled: set<nat>, ending: seq<Ending>, v: nat)
    requires NoRepeats(marks) && Tells(marks, settled, ending) && v !in settled && v < |ending|
    ensures NoRepeats(marks + MarkOf(v, ending[v]))
    ensures Tells(marks + MarkOf(v, ending[v]), settled + {v}, ending)
    ensures Errors(marks + MarkOf(v, ending[v])) == Errors(marks) + if ending[v].Broke? then 1 else 0
  {
    assert forall i :: 0 <= i < |marks| ==> marks[i] in marks;
    if ending[v].LimitReached? {
      assert marks + MarkOf(v, ending[v]) == marks;
    } else {
      assert (marks + MarkOf(v, ending[v]))[..|marks|] == marks;
    }
  }

  // ---------------------------------------------------------------- where a vehicle is

  /** In flight, given to a callback, settled, or dropped by a successful cancellation. */
  datatype Places = Places(futures: set<nat>, late: set<nat>, settled: set<nat>, dropped: set<nat>)

  function InFlight(futures: set<nat>): nat { |futures| }

  predicate AllCancelled(dropped: set<nat>, cancelled: seq<bool>) {
    forall v :: v in dropped ==> v < |cancelled| && cancelled[v]
  }

  /** How many places hold the vehicle. */
  function Held(p: Places, v: nat): nat {
    (if v in p.futures then 1 else 0) + (if v in p.late then 1 else 0) +
    (if v in p.settled then 1 else 0) + if v in p.dropped then 1 else 0
  }

  /** Every submitted vehicle is in exactly one place. */
  ghost predicate Placed(next: nat, p: Places) {
    forall v: nat :: Held(p, v) == if v < next then 1 else 0
  }

  lemma NothingPlaced()
    ensures Placed(0, Places({}, {}, {}, {}))
  {
  }

  lemma PlaceNext(next: nat, p: Places)
    requires Placed(next, p)
    ensures next !in p.futures && InFlight(p.futures + {next}) == InFlight(p.futures) + 1
    ensures Placed(next + 1, p.(futures := p.futures + {next}))
  {
    assert Held(p, next) == 0;
    assert forall v: nat :: Held(p.(futures := p.futures + {next}), v) == Held(p, v) + if v == next then 1 else 0;
  }

  lemma PlaceLate(next: nat, p: Places)
    requires Placed(next, p)
    ensures Placed(next, p.(futures := {}, late := p.late + p.futures))
  {
    forall v: nat ensures Held(p.(futures := {}, late := p.late + p.futures), v) == Held(p, v) {
      assert Held(p, v) <= 1;
    }
  }

  lemma PlaceCollected(next: nat, p: Places, v: nat)
    requires Placed(next, p) && v in p.futures
    ensures InFlight(p.futures - {v}) == InFlight(p.futures) - 1
    ensures v !in p.settled && Placed(next, p.(futures := p.futures - {v}, settled := p.settled + {v}))
  {
    assert Held(p, v) == 1;
    assert forall w: nat :: Held(p.(futures := p.futures - {v}, settled := p.settled + {v}), w) == Held(p, w);
  }

  lemma PlaceSettled(next: nat, p: Places, v: nat)
    requires Placed(next, p) && v in p.late
    ensures v !in p.settled && Placed(next, p.(late := p.late - {v}, settled := p.settled + {v}))
    ensures Placed(next, p.(late := p.late - {v}, dropped := p.dropped + {v}))
  {
    assert Held(p, v) == 1;
    assert forall w: nat :: Held(p.(late := p.late - {v}, settled := p.settled + {v}), w) == Held(p, w);
    assert forall w: nat :: Held(p.(late := p.late - {v}, dropped := p.dropped + {v}), w) == Held(p, w);
  }

  // ---------------------------------------------------------------- the dispatcher

  class ModelRun {
    const total: nat
    const cap: nat
    /** How each vehicle ends when it runs, whether its cancellation succeeds, and whether the limit
        flag is seen set when its result is collected. */
    const ending: seq<Ending>
    const cancelled: seq<bool>
    const flagged: seq<bool>

    var next: nat
    var futures: set<nat>
    var late: set<nat>
    var marks: seq<Mark>
    ghost var settled: set<nat>
    ghost var dropped: set<nat>

    constructor (cap: nat, ending: seq<Ending>, cancelled: seq<bool>, flagged: seq<bool>)
      requires cap >= 1 && |cancelled| == |ending| && |flagged| == |ending|
      ensures Valid() && next == 0 && futures == late == settled == dropped == {} && marks == []
      ensures total == |ending| && this.cap == cap
      ensures this.ending == ending && this.cancelled == cancelled && this.flagged == flagged
    {
      this.total, this.cap := |ending|, cap;
      this.ending, this.cancelled, this.flagged := ending, cancelled, flagged;
      next, futures, late, marks, settled, dropped := 0, {}, {}, [], {}, {};
      NothingPlaced();
    }

    /** Every submitted vehicle is in exactly one place, and at most `cap` are in flight. */
    ghost predicate Valid()
      reads this
    {
      && cap >= 1 && |ending| == |cancelled| == |flagged| == total && next <= total && InFlight(futures) <= cap
      && Placed(next, Where())
      && AllCancelled(dropped, cancelled)
      && NoRepeats(marks) && Tells(marks, settled, ending)
    }

    ghost function Where(): Places
      reads this
    {
      Places(futures, late, settled, dropped)
    }

    /** Takes the next pending vehicle; a vehicle leaves the iterator once and never returns. */
    method SubmitNext() returns (submitted: bool)
      requires Valid() && InFlight(futures) < cap
      modifies this`next, this`futures
      ensures Valid()
      ensures submitted == (old(next) < total)
      ensures submitted ==> InFlight(futures) == InFlight(old(futures)) + 1
      ensures submitted ==> next == old(next) + 1 && futures == old(futures) + {old(next)} && old(next) !in old(futures)
      ensures !submitted ==> next == old(next) && futures == old(futures)
    {
      if next == total { return false; }
      hide InFlight, Tells, NoRepeats, Placed, Errors, MarkOf, AllCancelled;
      ghost var before := Where();
      PlaceNext(next, before);
      futures := futures + {next};
      assert Where() == before.(futures := before.futures + {next});
      next := next + 1;
      return true;
    }

    /** Cancels what is left and leaves its settlement to callbacks. */
    method HandOver()
      requires Valid()
      modifies this`futures, this`late
      ensures Valid() && futures == {} && late == old(late) + old(futures)
    {
      hide Tells, NoRepeats, Placed, Errors, MarkOf, AllCancelled;
      PlaceLate(next, Where());
      late := late + futures;
      futures := {};
    }

    /** Collects one completed future. */
    method Collect(v: nat)
      requires Valid() && v in futures && v < total
      modifies this`futures, this`marks, this`settled
      ensures Valid()
      ensures futures == old(futures) - {v} && settled == old(settled) + {v}
      ensures InFlight(futures) == InFlight(old(futures)) - 1
      ensures marks == old(marks) + MarkOf(v, ending[v])
      ensures Errors(marks) == Errors(old(marks)) + if ending[v].Broke? then 1 else 0
    {
      hide InFlight, Tells, NoRepeats, Placed, Errors, MarkOf, AllCancelled;
      ghost var before := Where();
      PlaceCollected(next, before, v);
      Append(marks, settled, ending, v);
      futures := futures - {v};
      marks := marks + MarkOf(v, ending[v]);
      settled := settled + {v};
      assert Where() == before.(futures := before.futures - {v}, settled := before.settled + {v});
    }

    /** One call of the completion callback, after the model's loop gave the future away. */
    method SettleLate(v: nat)
      requires Valid() && v in late && v < total
      modifies this`late, this`marks, this`settled, this`dropped
      ensures Valid()
      ensures late == old(late) - {v}
      ensures marks == old(marks) + if cancelled[v] then [] else MarkOf(v, ending[v])
      ensures Errors(marks) >= Errors(old(marks))
    {
      hide InFlight, Tells, NoRepeats, Placed, Errors, MarkOf;
      PlaceSettled(next, Where(), v);
      late := late - {v};
      assert marks + [] == marks;
      if cancelled[v] {
        dropped := dropped + {v};
        return;
      }
      Append(marks, settled, ending, v);
      settled := settled + {v};
      marks := marks + MarkOf(v, ending[v]);
    }

    /** Submits up to `count` vehicles, as many as completed. */
    method Refill(count: nat)
      requires Valid() && InFlight(futures) + count <= cap
      modifies this`next, this`futures
      ensures Valid()
      ensures old(next) <= next && next - old(next) == InFlight(futures) - InFlight(old(futures))
      ensures next == total || InFlight(futures) == InFlight(old(futures)) + count
    {
      hide Valid, InFlight;
      for k := 0 to count
        invariant Valid()
        invariant next == old(next) + k && InFlight(futures) == InFlight(old(futures)) + k
      {
        Bounds();
        var submitted := SubmitNext();
        if !submitted { return; }
      }
    }

    lemma Bounds()
      requires Valid()
      ensures cap >= 1 && next <= total && InFlight(futures) <= cap
      ensures |ending| == |cancelled| == |flagged| == total
    {
    }

    lemma Submitted(v: nat)
      requires Valid() && (v in futures || v in late)
      ensures v < total
    {
      assert Held(Where(), v) == 1;
    }

    /** Collects the futures that completed together, until the limit or too many failures end it. */
    method CollectAll(done: set<nat>, before: nat) returns (failed: nat, verdict: Verdict)
      requires Valid() && done <= futures && late == {} && dropped == {}
      requires before == Errors(marks) < MaxFail(total) && NoneTrips(settled, ending, flagged)
      modifies this`futures, this`late, this`marks, this`settled
      ensures Valid() && failed == Errors(marks) <= MaxFail(total)
      ensures verdict.Going? ==>
        late == {} && InFlight(futures) == InFlight(old(futures)) - |done| && failed < MaxFail(total)
      ensures verdict.GaveUp? ==> futures == {} && failed == MaxFail(total)
      ensures verdict.Tripped? ==> futures == {}
      ensures !verdict.Tripped? <==> NoneTrips(settled, ending, flagged)
    {
      hide Valid, InFlight, Errors, MarkOf, NoneTrips;
      failed := before;
      var left := done;
      while left != {}
        invariant Valid() && left <= futures && late == {}
        invariant InFlight(futures) - |left| == InFlight(old(futures)) - |done|
        invariant failed == Errors(marks) < MaxFail(total) && NoneTrips(settled, ending, flagged)
        decreases |left|
      {
        var v :| v in left;
        left := left - {v};
        Submitted(v);
        Bounds();
        ghost var earlier := settled;
        Collect(v);
        TripsOne(earlier, v, ending, flagged);
        if Trips(ending[v], flagged[v]) {
          HandOver();
          return failed, Tripped;
        }
        if ending[v] == Broke {
          failed := failed + 1;
          if failed >= MaxFail(total) {
            HandOver();
            return failed, GaveUp;
          }
        }
      }
      verdict := Going;
    }

    /** The loop: wait for some futures, collect them, submit as many again. */
    method Drive() returns (r: Outcome)
      requires Valid() && next == 0 && futures == late == settled == dropped == {} && marks == []
      modifies this
      ensures Valid() && futures == {}
      ensures r.Stopped? <==> !NoneTrips(settled, ending, flagged)
      ensures r.Returned? ==> r.failed == Errors(marks) <= MaxFail(total)
      ensures r.Returned? && r.failed < MaxFail(total) ==> next == total && late == dropped == {}
    {
      hide Valid, InFlight, Errors, MarkOf;
      Bounds();
      EmptyHolds(futures);
      NoErrors();
      Refill(cap);
      var failed := 0;
      while futures != {}
        invariant Valid() && late == {} && dropped == {}
        invariant next == total || InFlight(futures) == cap
        invariant failed == Errors(marks) < MaxFail(total) && NoneTrips(settled, ending, flagged)
        decreases 2 * (total - next) + InFlight(futures)
      {
        Bounds();
        var done :| done <= futures && done != {};
        SubsetHolds(done, futures);
        var verdict;
        failed, verdict := CollectAll(done, failed);
        if verdict.Tripped? { return Stopped; }
        if verdict.GaveUp? { return Returned(failed); }
        Refill(|done|);
        Bounds();
      }
      EmptyHolds(futures);
      Bounds();
      r := Returned(failed);
    }

    /** The callbacks of the futures given away, in whatever order they complete. */
    method Drain()
      requires Valid()
      modifies this`late, this`marks, this`settled, this`dropped
      ensures Valid() && late == {}
      ensures old(late) == {} ==> marks == old(marks) && settled == old(settled) && dropped == old(dropped)
    {
      hide Valid, Errors, MarkOf;
      while late != {}
        invariant Valid()
        invariant old(late) == {} ==>
          late == {} && marks == old(marks) && settled == old(settled) && dropped == old(dropped)
        decreases |late|
      {
        var v :| v in late;
        Submitted(v);
        SettleLate(v);
      }
    }
  }

  datatype Verdict = Going | GaveUp | Tripped

  /** The limit was hit while the vehicle was crawled, or is seen set when its result is collected. */
  predicate Trips(e: Ending, flag: bool) { e.LimitReached? || (e.Finished? && flag) }

  ghost predicate NoneTrips(settled: set<nat>, ending: seq<Ending>, flagged: seq<bool>) {
    forall v :: v in settled ==> v < |ending| && v < |flagged| && !Trips(ending[v], flagged[v])
  }

  lemma TripsOne(settled: set<nat>, v: nat, ending: seq<Ending>, flagged: seq<bool>)
    requires v < |ending| == |flagged| && NoneTrips(settled, ending, flagged)
    ensures NoneTrips(settled + {v}, ending, flagged) <==> !Trips(ending[v], flagged[v])
  {
    assert v in settled + {v};
  }

  lemma EmptyHolds(futures: set<nat>)
    ensures InFlight(futures) == 0 <==> futures == {}
  {
  }

  lemma NoErrors()
    ensures Errors([]) == 0
  {
  }

  lemma SubsetHolds(done: set<nat>, futures: set<nat>)
    requires done <= futures && done != {}
    ensures 0 < |done| <= InFlight(futures)
  {
    assert |futures - done| + |done| == |futures| by { assert futures == (futures - done) + done; }
  }

  // ---------------------------------------------------------------- one model

  /** A vehicle that was submitted: dropped unmarked by a cancellation, or marked as it ended. */
  predicate SettledOnce(marks: seq<Mark>, v: nat, e: Ending, wasCancelled: bool) {
    || (wasCancelled && Done(v) !in marks && Error(v) !in marks)
    || ((Done(v) in marks <==> e == Finished) && (Error(v) in marks <==> e == Broke))
  }

  lemma RunSettled(run: ModelRun, v: nat)
    requires run.Valid() && run.futures == {} && run.late == {} && v < run.next
    ensures v < |run.ending| == |run.cancelled| && SettledOnce(run.marks, v, run.ending[v], run.cancelled[v])
    ensures run.dropped == {} ==> (Done(v) in run.marks <==> run.ending[v] == Finished)
  {
    assert Held(run.Where(), v) == 1;
    assert Done(v) in run.marks ==> Done(v).vehicle in run.settled;
    assert Error(v) in run.marks ==> Error(v).vehicle in run.settled;
  }

  lemma RunFinished(run: ModelRun, v: nat)
    requires run.Valid() && run.futures == {} && run.late == {} && run.dropped == {}
    requires v < run.next && Errors(run.marks) == 0 && NoneTrips(run.settled, run.ending, run.flagged)
    ensures Done(v) in run.marks
  {
    RunSettled(run, v);
    assert Held(run.Where(), v) == 1;
    if run.ending[v] == Broke { ErrorCounts(run.marks, v); }
  }

  /** The vehicles among the first `n` that end with an error. */
  function Broken(ending: seq<Ending>, n: nat): set<nat>
    requires n <= |ending|
  {
    set v: nat | v < n && ending[v].Broke?
  }

  function Less(a: nat, b: nat): nat { if a < b then a else b }

  lemma SubsetCounts(a: set<nat>, b: set<nat>)
    requires a <= b
    ensures |a| <= |b|
  {
    assert b == a + (b - a);
  }

  lemma PlacedOnce(run: ModelRun, v: nat)
    requires run.Valid()
    ensures v in run.settled ==> v < run.next
    ensures run.futures == run.late == run.dropped == {} && v < run.next ==> v in run.settled
  {
    assert Held(run.Where(), v) == if v < run.next then 1 else 0;
  }

  /** The errors counted are vehicles that broke, and all of them when nothing was given away. */
  lemma RunEnded(run: ModelRun)
    requires run.Valid() && run.futures == {}
    ensures Errors(run.marks) <= |Broken(run.ending, run.total)|
    ensures run.next == run.total && run.late == run.dropped == {} ==>
      Errors(run.marks) == |Broken(run.ending, run.total)|
  {
    ErrorsAreVehicles(run.marks);
    forall v | v in Failed(run.marks) ensures v in Broken(run.ending, run.total) { PlacedOnce(run, v); }
    SubsetCounts(Failed(run.marks), Broken(run.ending, run.total));
    if run.next == run.total && run.late == run.dropped == {} {
      forall v | v in Broken(run.ending, run.total) ensures v in Failed(run.marks) {
        PlacedOnce(run, v);
        assert Error(v) in run.marks;
      }
      assert Failed(run.marks) == Broken(run.ending, run.total);
    }
  }

  lemma RunTripped(run: ModelRun)
    requires run.Valid() && !NoneTrips(run.settled, run.ending, run.flagged)
    ensures exists v: nat ::
      v < run.next && (run.ending[v].LimitReached? || (run.ending[v].Finished? && run.flagged[v]))
  {
    var v :| v in run.settled && Trips(run.ending[v], run.flagged[v]);
    PlacedOnce(run, v);
  }

  lemma RunSpared(run: ModelRun, v: nat)
    requires run.Valid() && NoneTrips(run.settled, run.ending, run.flagged) && v < run.next
    requires run.futures == run.late == run.dropped == {}
    ensures v < |run.ending| == |run.flagged|
    ensures !run.ending[v].LimitReached? && !(run.ending[v].Finished? && run.flagged[v])
    ensures (Done(v) in run.marks <==> run.ending[v] == Finished) && (Error(v) in run.marks <==> run.ending[v] == Broke)
  {
    PlacedOnce(run, v);
  }

  lemma MarksWithin(run: ModelRun)
    requires run.Valid()
    ensures forall m :: m in run.marks ==> m.vehicle < run.total
  {
  }

  lemma DoneFinished(run: ModelRun, v: nat)
    requires run.Valid() && Done(v) in run.marks
    ensures v < run.next && v < |run.ending| && run.ending[v] == Finished
  {
    assert Done(v).vehicle in run.settled;
    assert Held(run.Where(), v) == 1;
  }

  /** One call of `crawl_model` and the callbacks it leaves behind.  `pending` and `submitted` say
      which vehicles were handed to the pool. */
  method CrawlModel(vehicles: seq<Vehicle>, done: set<string>, limit: nat, floor: int, partLimit: nat, workers: int,
                    ending: seq<Ending>, cancelled: seq<bool>, flagged: seq<bool>)
      returns (r: Outcome, worked: bool, pending: seq<string>, marks: seq<Mark>, submitted: nat)
    requires |vehicles| <= |ending| == |cancelled| == |flagged|
    ensures submitted <= |pending| <= |ending| && |pending| <= |cancelled|
    ensures forall key :: key in pending ==> key !in done
    ensures NoRepeats(marks) && (AllDifferent(Keys(vehicles)) ==> MarkedOnce(marks, pending))
    ensures forall v: nat :: v < submitted ==> SettledOnce(marks, v, ending[v], cancelled[v])
    ensures forall v: nat :: Done(v) in marks ==> v < submitted && ending[v] == Finished
    ensures r == Returned(0) ==> forall v :: v in vehicles ==> Accounted(v, done, floor, pending, marks)
    ensures worked <==> pending != []
    ensures InLine(vehicles, done, limit, floor, pending)
    ensures r.Stopped? ==>
      exists v: nat :: v < submitted && (ending[v].LimitReached? || (ending[v].Finished? && flagged[v]))
    ensures r.Returned? ==> var cut := if 0 < limit < |vehicles| then |vehicles| - limit else 0;
      && r.failed == cut + Less(|Broken(ending, |pending|)|, if |pending| < 8 then 3 else |pending| / 2)
      && (r.failed < cut + (if |pending| < 8 then 3 else |pending| / 2) ==>
           submitted == |pending| && forall v: nat :: v < |pending| ==> Settled(marks, v, ending[v], flagged[v]))
  {
    hide Tells, Placed, NoneTrips, Errors, SettledOnce, InLine;
    var truncated;
    pending, truncated := Plan(vehicles, done, limit, floor);
    var n := |pending|;
    marks, submitted, worked := [], 0, pending != [];
    assert Broken(ending[..n], n) == Broken(ending, n);
    if !worked {
      assert Broken(ending, 0) == {};
      return Returned(truncated), worked, pending, marks, submitted;
    }
    var run := new ModelRun(Cap(partLimit, workers), ending[..n], cancelled[..n], flagged[..n]);
    r := run.Drive();
    assert NoneTrips(run.settled, run.ending, run.flagged) <==> r.Returned?;
    RunEnded(run);
    if r.Stopped? { RunTripped(run); }
    if r.Returned? && r.failed < MaxFail(n) {
      forall v: nat | v < n ensures Settled(run.marks, v, ending[v], flagged[v]) { RunSpared(run, v); }
    }
    run.Drain();
    marks, submitted := run.marks, run.next;
    if AllDifferent(pending) {
      MarksWithin(run);
      DifferentKeysMarkedOnce(marks, pending);
    }
    forall v: nat | v < submitted ensures SettledOnce(marks, v, ending[v], cancelled[v]) { RunSettled(run, v); }
    forall v: nat | Done(v) in marks ensures v < submitted && ending[v] == Finished { DoneFinished(run, v); }
    if r.Returned? { r := Returned(r.failed + truncated); }
    if r == Returned(0) {
      forall v | v in vehicles ensures Accounted(v, done, floor, pending, marks) {
        if v.key in pending {
          var i :| 0 <= i < n && pending[i] == v.key;
          RunFinished(run, i);
          assert HasDone(v.key, pending, marks);
        }
      }
    }
  }

  /** The vehicle ran to an ordinary end, is marked as it ended and met no limit. */
  predicate Settled(marks: seq<Mark>, v: nat, e: Ending, flag: bool) {
    && ((e == Finished && !flag) || e == Broke)
    && (Done(v) in marks <==> e == Finished) && (Error(v) in marks <==> e == Broke)
  }

  predicate HasDone(key: string, pending: seq<string>, marks: seq<Mark>) {
    exists i: nat :: i < |pending| && pending[i] == key && Done(i) in marks
  }

  /** Done before, marked done by this call, or left out by the year floor. */
  predicate Accounted(v: Vehicle, done: set<string>, floor: int, pending: seq<string>, marks: seq<Mark>) {
    v.key in done || BelowFloor(v, floor) || HasDone(v.key, pending, marks)
  }
}
