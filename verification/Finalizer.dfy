/**
The end of one bounded crawl, statement by statement: publish, finish, commit, and reconcile when
something was raised on the way.
*/
module Finalizer {
  import opened Wrappers
  import opened Publication

  /** What keeps a run from being started: a scope nobody asks for, another identity under its key,
      another owner while it is running, or a published run that is to be used anew. */
  predicate StartConflicts(store: Store, key: string, r: Request) {
    || (r.kind == Bounded && r.scope.Some? && r.scope != store.desired)
    || (key in store.runs
        && var row := store.runs[key];
           || row.kind != r.kind || row.target != r.target || row.scope != r.scope
           || (row.scheduler.Some? <==> r.scheduler.None?)
           || (row.status == Running && row.scheduler != r.scheduler)
           || (row.status == BoundedSuccess && r.anew))
  }

  /** A started run has the identity of the request; it is running and owned by the requester with its
      marks wiped when it is new or used anew, and a success that is not used anew stays as it is. */
  predicate Started(store: Store, key: string, r: Request, row: RunRow) {
    && row.kind == r.kind && row.target == r.target && row.scope == r.scope
    && (row.scheduler.Some? <==> r.scheduler.Some?)
    && (if key in store.runs && store.runs[key].status in {FullSuccess, BoundedSuccess} && !r.anew
        then row == store.runs[key]
        else row.status == Running && row.scheduler == r.scheduler)
    && (key !in store.runs || r.anew ==> !row.rejected && !row.stale)
    && (key in store.runs && !r.anew ==> row.rejected == store.runs[key].rejected && row.stale == store.runs[key].stale)
  }

  /** One connection: the committed store and what the open transaction has written. */
  class Database {
    var committed: Store
    var writes: map<string, RunRow>
    var snapshot: Option<seq<SnapshotRow>>

    constructor (store: Store)
      ensures committed == store && Clean()
    {
      committed, writes, snapshot := store, map[], None;
    }

    predicate Clean()
      reads this
    {
      writes == map[] && snapshot == None
    }

    function Current(): Store
      reads this
    {
      View(committed, Session(Idle, writes, snapshot))
    }

    /** `publish_bounded_parts`: replaces the snapshot in the transaction, or raises. */
    method PublishBounded(key: string, target: int, f: Facts) returns (r: Result<int>)
      requires Clean()
      modifies this`writes, this`snapshot
      ensures r.Success? <==> target == 10_000 && Warranted(committed, key, f)
      ensures r.Success? ==> snapshot.Some? && Shows(snapshot.value, key, f.joined) && writes == map[]
      ensures r.Success? ==> snapshot.value == SnapshotOf(key, f.joined)
    {
      if !MayPublish(committed, key, target, f) { return Failure("bounded run may not be published"); }
      var rows := SnapshotOf(key, f.joined);
      snapshot := Some(rows);
      if !SnapshotPasses(key, target, rows, f) { return Failure("bounded snapshot mismatch"); }
      return Success(target);
    }

    /** `start_run`: marks the run as running, keeps a success, or refuses. */
    method MarkRunning(key: string, r: Request) returns (refused: bool)
      requires Clean()
      modifies this`writes
      ensures refused <==> StartRun(committed, key, r).Failure?
      ensures refused <==> StartConflicts(committed, key, r)
      ensures refused ==> writes == map[]
      ensures !refused ==> writes == map[key := StartRun(committed, key, r).value]
      ensures !refused ==> Started(committed, key, r, writes[key])
      ensures HasStatus(committed.runs, key, BoundedSuccess) ==> Current().runs == committed.runs
    {
      var row := StartRun(committed, key, r);
      if row.Failure? { return true; }
      writes := writes[key := row.value];
      assert HasStatus(committed.runs, key, BoundedSuccess) ==> committed.runs[key := row.value] == committed.runs;
      return false;
    }

    /** `reject_run_evidence`: a published or completed run keeps its row. */
    method RejectEvidence(key: string)
      requires Clean() && key in committed.runs
      modifies this`writes
      ensures Current().runs == committed.runs[key := RejectRun(committed.runs[key])]
      ensures Follows(committed.runs[key], Current().runs[key])
      ensures committed.runs[key].status in {Running, Error, Interrupted} ==>
        Current().runs[key].status == Error && Current().runs[key].rejected
      ensures HasStatus(committed.runs, key, BoundedSuccess) ==> Current().runs == committed.runs
    {
      var row := committed.runs[key];
      if row.status.Running? || row.status.Error? || row.status.Interrupted? {
        writes := writes[key := row.(status := Error, rejected := true)];
      }
      assert committed.runs[key := row] == committed.runs;
    }

    /** `finish_run`: one conditional update; a missing row is not an error. */
    method FinishStatus(key: string, status: Status)
      modifies this`writes
      ensures writes ==
        if key in old(Current()).runs then old(writes)[key := FinishRun(old(Current()).runs[key], status)]
        else old(writes)
    {
      var runs := Current().runs;
      if key in runs { writes := writes[key := FinishRun(runs[key], status)]; }
    }

    /** `commit`: the answer may be lost before or after the transaction took effect. */
    method Commit(outcome: Outcome) returns (acknowledged: bool)
      modifies this
      ensures Clean() && acknowledged == outcome.Acknowledged?
      ensures committed == if outcome.LostBefore? then old(committed) else old(Current())
    {
      if !outcome.LostBefore? { committed := Current(); }
      writes, snapshot := map[], None;
      acknowledged := outcome.Acknowledged?;
    }

    method Rollback()
      modifies this`writes, this`snapshot
      ensures Clean()
    {
      writes, snapshot := map[], None;
    }
  }

  /** What goes wrong outside the repository's own checks: in the evidence verification, in the update
      of the status, in the read that reconciles, and in closing the run as failed. */
  datatype Trouble = Trouble(evidence: bool, status: bool, unreadable: bool, closing: bool)

  /** The publication passes all its gates and its commit takes effect. */
  predicate TakesEffect(store: Store, key: string, target: int, f: Facts, t: Trouble, commit: Outcome) {
    && !t.evidence && !t.status && !commit.LostBefore?
    && MayPublish(store, key, target, f) && SnapshotPasses(key, target, SnapshotOf(key, f.joined), f)
  }

  predicate Succeeded(store: Store, key: string) { key in store.runs && Terminal(store.runs[key].status) }

  /** The status under `key` as far as a caller of `run` sees it. */
  datatype Ending = Returned(status: Status) | Raised

  /** `run` from the target on.  Whatever is raised and however the two commits end, the snapshot and the
      status change together or not at all, a publication that took effect is never closed as failed, and
      success is returned exactly when it was acknowledged or can be read back. */
  method FinishBounded(db: Database, key: string, target: int, f: Facts, t: Trouble, commit: Outcome, close: Outcome)
      returns (e: Ending)
    requires db.Clean() && key in db.committed.runs
    modifies db
    ensures db.Clean() && key in db.committed.runs
    ensures TakesEffect(old(db.committed), key, target, f, t, commit) <==>
      !t.evidence && !t.status && commit != LostBefore && target == 10_000 && Warranted(old(db.committed), key, f)
    ensures TakesEffect(old(db.committed), key, target, f, t, commit) ==>
      && FullSnapshot(db.committed.bounded, key) && Shows(db.committed.bounded, key, f.joined)
      && db.committed.runs[key] == old(db.committed).runs[key].(status := BoundedSuccess)
    ensures !TakesEffect(old(db.committed), key, target, f, t, commit) ==>
      && db.committed.bounded == old(db.committed).bounded
      && db.committed.runs[key] ==
         if old(db.committed).runs[key].status in {FullSuccess, BoundedSuccess} || e.Returned? || t.closing
           || close == LostBefore
         then old(db.committed).runs[key]
         else old(db.committed).runs[key].(status := Error)
    ensures db.committed.desired == old(db.committed).desired
    ensures forall other :: other != key ==>
      (other in db.committed.runs <==> other in old(db.committed).runs)
        && (other in db.committed.runs ==> db.committed.runs[other] == old(db.committed).runs[other])
    ensures e.Returned? ==> HasStatus(db.committed.runs, key, e.status) && Terminal(e.status)
    ensures e.Returned? <==>
      (TakesEffect(old(db.committed), key, target, f, t, commit) && commit.Acknowledged?)
        || (!t.unreadable && Succeeded(db.committed, key))
  {
    TakesEffectIff(db.committed, key, target, f, t, commit);
    hide MayPublish, SnapshotPasses, TakesEffect, Warranted;
    var acknowledged := Attempt(db, key, target, f, t, commit);
    if acknowledged { return Returned(BoundedSuccess); }
    if !t.unreadable && Terminal(db.committed.runs[key].status) {
      return Returned(db.committed.runs[key].status);
    }
    if !t.closing { CloseFailed(db, key, close); }
    return Raised;
  }

  /** The store once the publication of `key` has taken effect. */
  function PublishedStore(store: Store, key: string, f: Facts): Store
    requires key in store.runs
  {
    Store(store.runs[key := store.runs[key].(status := BoundedSuccess)], SnapshotOf(key, f.joined), store.desired)
  }

  method Attempt(db: Database, key: string, target: int, f: Facts, t: Trouble, commit: Outcome)
      returns (acknowledged: bool)
    requires db.Clean() && key in db.committed.runs
    modifies db
    ensures db.Clean()
    ensures db.committed ==
      if TakesEffect(old(db.committed), key, target, f, t, commit) then PublishedStore(old(db.committed), key, f)
      else old(db.committed)
    ensures acknowledged <==> TakesEffect(old(db.committed), key, target, f, t, commit) && commit.Acknowledged?
    ensures TakesEffect(old(db.committed), key, target, f, t, commit) ==> FullSnapshot(db.committed.bounded, key)
  {
    TakesEffectIff(db.committed, key, target, f, t, commit);
    hide MayPublish, SnapshotPasses, Warranted, TakesEffect;
    acknowledged := false;
    if !t.evidence {
      var r := db.PublishBounded(key, target, f);
      if r.Success? && !t.status {
        WarrantedIsRunning(db.committed, key, f);
        ghost var row := db.committed.runs[key];
        db.FinishStatus(key, BoundedSuccess);
        assert db.Current().runs == db.committed.runs[key := FinishRun(row, BoundedSuccess)];
        acknowledged := db.Commit(commit);
      }
    }
    db.Rollback();
  }

  /** Records the failure in a transaction of its own; a success is never downgraded. */
  method CloseFailed(db: Database, key: string, close: Outcome)
    requires db.Clean() && key in db.committed.runs
    modifies db
    ensures db.Clean()
    ensures db.committed == if close.LostBefore? then old(db.committed)
      else old(db.committed).(runs := old(db.committed).runs[key := FinishRun(old(db.committed).runs[key], Error)])
  {
    ghost var row := db.committed.runs[key];
    db.FinishStatus(key, Error);
    assert db.Current().runs == db.committed.runs[key := FinishRun(row, Error)];
    var _ := db.Commit(close);
  }

  /** A publication takes effect exactly when nothing goes wrong around it and it is warranted. */
  lemma TakesEffectIff(store: Store, key: string, target: int, f: Facts, t: Trouble, commit: Outcome)
    ensures TakesEffect(store, key, target, f, t, commit) <==>
      !t.evidence && !t.status && commit != LostBefore && target == 10_000 && Warranted(store, key, f)
  {
  }

  lemma WarrantedIsRunning(store: Store, key: string, f: Facts)
    requires Warranted(store, key, f)
    ensures key in store.runs && store.runs[key].status.Running? && FullSnapshot(SnapshotOf(key, f.joined), key)
  {
  }
}
