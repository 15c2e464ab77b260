/**
What the steps around a publication achieve when nothing disturbs them: a start, a finish without a
publication, reading back, closing as failed, rejecting and cleaning up.
*/
module RunSteps {
  import opened Wrappers
  import opened Publication
  import opened Finalizer

  /** An idle process that finds its row free marks the run exactly when nothing conflicts. */
  lemma StartGoesThroughIff(y: System, p: nat, key: string, r: Request)
    requires p in y.sessions && y.sessions[p].phase.Idle? && RowFree(y, p, key)
    ensures var next := Step(y, p, Start(key, r));
      && next.store == y.store && (StartConflicts(y.store, key, r) ==> next == y)
      && (!StartConflicts(y.store, key, r) ==>
            && next.sessions[p].phase == Marking(key, r.anew) && next.sessions[p].snapshot == None
            && next.sessions[p].writes.Keys == {key} && Started(y.store, key, r, next.sessions[p].writes[key]))
  {
    hide RowFree;
  }

  /** The acknowledged marker is in the store, and the process crawls, unless the run was complete before and
      is not used anew: then it reports that.  Without an answer it ends. */
  lemma MarkerGoesThrough(y: System, p: nat, key: string, r: Request, outcome: Outcome)
    requires p in y.sessions && y.sessions[p].phase.Idle? && RowFree(y, p, key) && !StartConflicts(y.store, key, r)
    ensures var marked := Step(y, p, Start(key, r));
      var next, row := Step(marked, p, CommitMarker(outcome)), marked.sessions[p].writes[key];
      && next.store.bounded == y.store.bounded && next.store.desired == y.store.desired
      && next.store.runs == (if outcome == LostBefore then y.store.runs else y.store.runs[key := row])
      && next.sessions[p] == At(
           if outcome != Acknowledged then Dead
           else if key in y.store.runs && !r.anew && CompleteAs(y.store.runs[key], r.kind) then
             Reported(key, y.store.runs[key].status)
           else Crawling(key))
  {
    hide RowFree;
    StartGoesThroughIff(y, p, key, r);
    var marked := Step(y, p, Start(key, r));
    assert marked.sessions[p].writes == map[key := marked.sessions[p].writes[key]];
  }

  predicate CompleteAs(row: RunRow, kind: Kind) {
    (kind == Bounded && row.status == BoundedSuccess) || (kind == Full && row.status == FullSuccess)
  }

  /** The status of a run that ends without a publication: a success stays, anything else is replaced. */
  lemma FinishGoesThrough(y: System, p: nat, status: Status, outcome: Outcome)
    requires p in y.sessions && y.sessions[p].phase.Crawling? && status != BoundedSuccess
    requires y.sessions[p].phase.key in y.store.runs && RowFree(y, p, y.sessions[p].phase.key)
    ensures var key := y.sessions[p].phase.key;
      var end, row := Step(Step(y, p, FinishOther(status)), p, Commit(outcome)), y.store.runs[key];
      && end.store.bounded == y.store.bounded && end.store.desired == y.store.desired
      && end.store.runs ==
         (if outcome == LostBefore || row.status in {FullSuccess, BoundedSuccess} then y.store.runs
          else y.store.runs[key := row.(status := status)])
      && end.sessions[p] ==
         At(if outcome == Acknowledged then Reported(key, status) else Failed(key, status == FullSuccess))
  {
    hide RowFree;
    var key := y.sessions[p].phase.key;
    assert y.store.runs + map[key := y.store.runs[key]] == y.store.runs;
  }

  /** A process that may have published reads the run back, and reports exactly a success it can read. */
  lemma ReadBackIff(y: System, p: nat, readable: bool)
    requires p in y.sessions && y.sessions[p].phase.Failed? && y.sessions[p].phase.finalizing
    ensures var key, next := y.sessions[p].phase.key, Step(y, p, Reconcile(readable));
      && next.store == y.store
      && next.sessions[p] == At(
           if readable && key in y.store.runs && y.store.runs[key].status in {FullSuccess, BoundedSuccess}
           then Reported(key, y.store.runs[key].status) else Failed(key, false))
  {
  }

  /** A failed run is closed as failed, but a success stays. */
  lemma ClosingGoesThrough(y: System, p: nat, outcome: Outcome)
    requires p in y.sessions && y.sessions[p].phase.Failed? && !y.sessions[p].phase.finalizing
    requires y.sessions[p].phase.key in y.store.runs && RowFree(y, p, y.sessions[p].phase.key)
    ensures var key := y.sessions[p].phase.key;
      var end, row := Step(Step(y, p, CloseError), p, CommitClose(outcome)), y.store.runs[key];
      && end.store.bounded == y.store.bounded && end.store.desired == y.store.desired
      && end.store.runs ==
         (if outcome == LostBefore || row.status in {FullSuccess, BoundedSuccess} then y.store.runs
          else y.store.runs[key := row.(status := Error)])
      && end.sessions[p] == At(Dead)
  {
    hide RowFree;
    var key := y.sessions[p].phase.key;
    assert y.store.runs + map[key := y.store.runs[key]] == y.store.runs;
  }

  /** Rejecting closes an open run and marks it; cleaning up closes a running run that is stale; neither
      touches anything else. */
  lemma MaintenanceGoesThrough(y: System, p: nat, key: string, outcome: Outcome)
    requires p in y.sessions && y.sessions[p].phase.Idle? && key in y.store.runs && RowFree(y, p, key)
    ensures var row := y.store.runs[key];
      var rejected := Step(Step(y, p, Reject(key)), p, CommitMaintenance(outcome));
      var cleaned := Step(Step(y, p, Cleanup(key)), p, CommitMaintenance(outcome));
      && rejected.sessions[p] == cleaned.sessions[p] == At(Idle)
      && rejected.store == y.store.(runs :=
           if outcome != LostBefore && row.status in {Running, Error, Interrupted}
           then y.store.runs[key := row.(status := Error, rejected := true)] else y.store.runs)
      && cleaned.store == y.store.(runs :=
           if outcome != LostBefore && row.status == Running && row.stale
           then y.store.runs[key := row.(status := Error)] else y.store.runs)
  {
    hide RowFree;
    assert y.store.runs + map[key := y.store.runs[key]] == y.store.runs;
  }
}
