/**
Publishing a bounded dataset: one transaction replaces the snapshot and sets the terminal status.
Any number of crawl processes, supervisors and repair jobs interleave; any of them may fail, crash
or lose the answer of a commit at any point.  Row and table locks are held until the transaction
ends, so each session is described by what it has written and not yet committed.
*/
module Publication {
  import opened Wrappers

  // ---------------------------------------------------------------- rows

  datatype Status = Running | FullSuccess | BoundedSuccess | Error | Interrupted | Sample | UnderTarget

  datatype Kind = Full | Bounded | SampleKind

  datatype Scope = Scope(brand: string, model: string, floor: int)

  /** A row of `crawl_runs`; run keys are unique, so the key names the run. */
  datatype RunRow = RunRow(status: Status, kind: Kind, target: Option<int>, scheduler: Option<nat>,
                           scope: Option<Scope>, rejected: bool, stale: bool)

  datatype SnapshotRow = SnapshotRow(part: int, run: string)

  datatype Store = Store(runs: map<string, RunRow>, bounded: seq<SnapshotRow>, desired: Option<Scope>)

  const FORMAL_TARGET := 10_000

  predicate Terminal(status: Status) { status.FullSuccess? || status.BoundedSuccess? }

  // ---------------------------------------------------------------- statements on one run

  datatype Request = Request(kind: Kind, target: Option<int>, scheduler: Option<nat>, scope: Option<Scope>, anew: bool)

  predicate SameIdentity(row: RunRow, r: Request) {
    row.kind == r.kind && row.target == r.target && row.scheduler.Some? == r.scheduler.Some? && row.scope == r.scope
  }

  function Marker(r: Request): RunRow { RunRow(Running, r.kind, r.target, r.scheduler, r.scope, false, false) }

  /** `start_run`: the row after the statement, or the refusal. */
  function StartRun(store: Store, key: string, r: Request): Result<RunRow> {
    if r.kind.Bounded? && r.scope.Some? && store.desired != r.scope then Failure("scope does not match desired scope")
    else if key !in store.runs then Success(Marker(r))
    else
      var row := store.runs[key];
      if !SameIdentity(row, r) then Failure("run identity mismatch")
      else if row.status.Running? && row.scheduler != r.scheduler then Failure("already owned by another scheduler")
      else if r.anew && row.status.BoundedSuccess? then Failure("published bounded run cannot be reused")
      else if r.anew then Success(Marker(r))
      else if Terminal(row.status) then Success(row)
      else
        Success(row.(status := Running, kind := r.kind, target := r.target, scheduler := r.scheduler,
                     scope := r.scope))
  }

  /** `finish_run`: one conditional update that never downgrades a success. */
  function FinishRun(row: RunRow, status: Status): RunRow {
    if Terminal(row.status) then row else row.(status := status)
  }

  function RejectRun(row: RunRow): RunRow {
    if row.status in {Running, Error, Interrupted} then row.(status := Error, rejected := true) else row
  }

  /** The supervisor's cleanup of runs left running since an earlier month. */
  function CleanupRun(row: RunRow): RunRow {
    if row.status.Running? && row.stale then row.(status := Error) else row
  }

  // ---------------------------------------------------------------- publishing

  /** What the gates of a publication read in its transaction. */
  datatype Facts = Facts(
    provenance: bool, failures: nat, source: seq<int>, scoped: nat, evidence: bool, receipts: bool,
    joined: seq<int>, invalidRows: nat, replay: bool)

  function SnapshotOf(key: string, parts: seq<int>): (rows: seq<SnapshotRow>)
    ensures |rows| == |parts| && forall row :: row in rows ==> row.run == key
  {
    seq(|parts|, i requires 0 <= i < |parts| => SnapshotRow(parts[i], key))
  }

  /** The gates that come before the first change. */
  predicate MayPublish(store: Store, key: string, target: int, f: Facts) {
    && target == FORMAL_TARGET && key in store.runs && key != ""
    && var row := store.runs[key];
       && row.kind.Bounded? && row.target == Some(target) && row.status.Running?
       && row.scheduler.Some? && f.provenance && f.failures == 0 && |f.source| == target
       && (row.scope.Some? ==> f.scoped == target)
       && f.evidence && f.receipts && store.desired == row.scope
  }

  /** The gates on the rows that were just inserted. */
  predicate SnapshotPasses(key: string, target: int, rows: seq<SnapshotRow>, f: Facts) {
    |rows| == target && (forall row :: row in rows ==> row.run == key) && f.invalidRows == 0 && f.replay
  }

  // ---------------------------------------------------------------- sessions

  /** Where a process stands.  `finalizing` remembers that a publication may have been committed. */
  datatype Phase =
    | Idle
    | Marking(key: string, anew: bool)
    | Crawling(key: string)
    | Published(key: string, read: Facts)
    | Finishing(key: string, status: Status, gates: Option<Facts>)
    | Failed(key: string, finalizing: bool)
    | Closing(key: string)
    | Maintaining
    | Reported(key: string, status: Status)
    | Dead

  datatype Session = Session(phase: Phase, writes: map<string, RunRow>, snapshot: Option<seq<SnapshotRow>>)

  datatype System = System(store: Store, sessions: map<nat, Session>)

  function At(phase: Phase): Session { Session(phase, map[], None) }

  /** What a session reads: the committed store under its own writes. */
  function View(store: Store, s: Session): Store {
    Store(store.runs + s.writes, if s.snapshot.Some? then s.snapshot.value else store.bounded, store.desired)
  }

  /** No other session holds the row, or the snapshot table. */
  ghost predicate RowFree(y: System, p: nat, key: string) {
    forall q :: q in y.sessions && q != p ==> key !in y.sessions[q].writes
  }

  ghost predicate TableFree(y: System, p: nat) {
    forall q :: q in y.sessions && q != p ==> y.sessions[q].snapshot.None?
  }

  /** The three ways a commit can end; after the last two the caller only sees a lost connection. */
  datatype Outcome = Acknowledged | LostBefore | LostAfter

  datatype Action =
    | Start(key: string, request: Request)
    | CommitMarker(outcome: Outcome)
    | Publish(target: int, facts: Facts)
    | FinishPublished
    | FinishOther(status: Status)
    | Commit(outcome: Outcome)
    | Fault
    | Reconcile(readable: bool)
    | CloseError
    | CommitClose(outcome: Outcome)
    | Reject(key: string)
    | Cleanup(key: string)
    | CommitMaintenance(outcome: Outcome)
    | Crash

  /** Commits what the session wrote unless the connection was lost before, and moves it to `phase`. */
  function Settle(y: System, p: nat, outcome: Outcome, phase: Phase): System
    requires p in y.sessions
  {
    System(if outcome.LostBefore? then y.store else View(y.store, y.sessions[p]), y.sessions[p := At(phase)])
  }

  function Put(y: System, p: nat, s: Session): System { y.(sessions := y.sessions[p := s]) }

  /** What a process does once its running marker was committed. */
  function AfterMarker(key: string, anew: bool, row: RunRow): Phase {
    if !anew && row.kind.Bounded? && row.status.BoundedSuccess? then Reported(key, BoundedSuccess)
    else if !anew && row.kind.Full? && row.status.FullSuccess? then Reported(key, FullSuccess)
    else Crawling(key)
  }

  ghost function StepStart(y: System, p: nat, key: string, r: Request): System
    requires p in y.sessions
  {
    var row := StartRun(y.store, key, r);
    if row.Failure? then y else Put(y, p, Session(Marking(key, r.anew), map[key := row.value], None))
  }

  ghost function StepPublish(y: System, p: nat, key: string, target: int, f: Facts): System
    requires p in y.sessions
  {
    if !MayPublish(y.store, key, target, f) then Put(y, p, At(Failed(key, true)))
    else
      var rows := SnapshotOf(key, f.joined);
      if !SnapshotPasses(key, target, rows, f) then Put(y, p, At(Failed(key, true)))
      else Put(y, p, Session(Published(key, f), map[key := y.store.runs[key]], Some(rows)))
  }

  /** One step of process `p`.  Steps that are blocked by a lock, or that its program does not take
      in its phase, leave the system unchanged. */
  ghost function Step(y: System, p: nat, a: Action): System {
    if p !in y.sessions then y else
      var s := y.sessions[p];
      match a
      case Start(key, r) =>
        if s.phase.Idle? && RowFree(y, p, key) then StepStart(y, p, key, r) else y
      case CommitMarker(outcome) =>
        if s.phase.Marking? && s.phase.key in s.writes then
          Settle(y, p, outcome,
                 if outcome.Acknowledged? then AfterMarker(s.phase.key, s.phase.anew, s.writes[s.phase.key]) else Dead)
        else y
      case Publish(target, facts) =>
        if s.phase.Crawling? && RowFree(y, p, s.phase.key) && TableFree(y, p) then
          StepPublish(y, p, s.phase.key, target, facts)
        else
          y
      case FinishPublished =>
        if s.phase.Published? && s.phase.key in s.writes then
          var key := s.phase.key;
          Put(y, p,
              Session(Finishing(key, BoundedSuccess, Some(s.phase.read)),
                      s.writes[key := FinishRun(s.writes[key], BoundedSuccess)], s.snapshot))
        else y
      case FinishOther(status) =>
        if s.phase.Crawling? && !status.BoundedSuccess? && s.phase.key in y.store.runs
          && RowFree(y, p, s.phase.key) then
          var key := s.phase.key;
          Put(y, p, Session(Finishing(key, status, None), map[key := FinishRun(y.store.runs[key], status)], None))
        else y
      case Commit(outcome) =>
        if s.phase.Finishing? then
          Settle(y, p, outcome,
                 if outcome.Acknowledged? then Reported(s.phase.key, s.phase.status)
                 else Failed(s.phase.key, Terminal(s.phase.status)))
        else y
      case Fault =>
        if s.phase.Crawling? then Put(y, p, At(Failed(s.phase.key, false)))
        else if s.phase.Published? then Put(y, p, At(Failed(s.phase.key, true)))
        else if s.phase.Finishing? then Put(y, p, At(Failed(s.phase.key, Terminal(s.phase.status))))
        else y
      case Reconcile(readable) =>
        if s.phase.Failed? && s.phase.finalizing then
          var key := s.phase.key;
          if readable && key in y.store.runs && Terminal(y.store.runs[key].status)
          then Put(y, p, At(Reported(key, y.store.runs[key].status)))
          else Put(y, p, At(Failed(key, false)))
        else y
      case CloseError =>
        if s.phase.Failed? && !s.phase.finalizing && s.phase.key in y.store.runs && RowFree(y, p, s.phase.key) then
          Put(y, p,
              Session(Closing(s.phase.key), map[s.phase.key := FinishRun(y.store.runs[s.phase.key], Error)], None))
        else y
      case CommitClose(outcome) => if s.phase.Closing? then Settle(y, p, outcome, Dead) else y
      case Reject(key) =>
        if s.phase.Idle? && key in y.store.runs && RowFree(y, p, key)
        then Put(y, p, Session(Maintaining, map[key := RejectRun(y.store.runs[key])], None)) else y
      case Cleanup(key) =>
        if s.phase.Idle? && key in y.store.runs && RowFree(y, p, key)
        then Put(y, p, Session(Maintaining, map[key := CleanupRun(y.store.runs[key])], None)) else y
      case CommitMaintenance(outcome) => if s.phase.Maintaining? then Settle(y, p, outcome, Idle) else y
      case Crash => Put(y, p, At(Dead))
  }

  // ---------------------------------------------------------------- the invariant

  ghost predicate FullSnapshot(rows: seq<SnapshotRow>, key: string) {
    |rows| == FORMAL_TARGET && forall row :: row in rows ==> row.run == key
  }

  predicate HasStatus(runs: map<string, RunRow>, key: string, status: Status) {
    key in runs && runs[key].status == status
  }

  /** Empty, or exactly the formal number of rows of one run that is published. */
  ghost predicate SnapshotSound(store: Store) {
    store.bounded == [] || exists key :: FullSnapshot(store.bounded, key) && HasStatus(store.runs, key, BoundedSuccess)
  }

  /** What a publication stands on, gate by gate: the run, its crawl, its evidence and the rows inserted. */
  ghost predicate Warranted(store: Store, key: string, f: Facts) {
    && key in store.runs && key != ""
    && store.runs[key].kind == Bounded && store.runs[key].status == Running
    && store.runs[key].target == Some(10_000) && store.runs[key].scheduler.Some?
    && store.runs[key].scope == store.desired
    && f.provenance && f.failures == 0 && |f.source| == 10_000
    && (store.runs[key].scope.Some? ==> f.scoped == 10_000)
    && f.evidence && f.receipts
    && |f.joined| == 10_000 && f.invalidRows == 0 && f.replay
  }

  /** The snapshot shows the joined parts, one row each, under the run's key. */
  ghost predicate Shows(rows: seq<SnapshotRow>, key: string, parts: seq<int>) {
    |rows| == |parts| && forall i :: 0 <= i < |rows| ==> rows[i].part == parts[i] && rows[i].run == key
  }

  /** How a row may change: a run stays the run it is, a running one keeps its owner, and a success is
      kept, except that a complete one may be started afresh. */
  predicate Follows(row: RunRow, next: RunRow) {
    && next.kind == row.kind && next.target == row.target && next.scope == row.scope
    && (next.scheduler.Some? <==> row.scheduler.Some?)
    && (row.status == Running ==> next.scheduler == row.scheduler)
    && (row.status == BoundedSuccess ==> next == row)
    && (row.status == FullSuccess ==> next == row || next.status == Running)
  }

  /** No session is about to break a row's life, or to publish without having inserted a snapshot. */
  ghost predicate WritesSound(store: Store, s: Session) {
    && (forall key :: key in s.writes && key in store.runs ==> Follows(store.runs[key], s.writes[key]))
    && (forall key :: HasStatus(s.writes, key, BoundedSuccess) ==>
          HasStatus(store.runs, key, BoundedSuccess) || s.phase == PublishedBy(s, key))
  }

  /** The phase of a session that publishes `key`. */
  function PublishedBy(s: Session, key: string): Phase {
    Finishing(key, BoundedSuccess, if s.phase.Finishing? then s.phase.gates else None)
  }

  ghost predicate PhaseSound(store: Store, s: Session) {
    && (s.snapshot.Some? ==> s.phase.Published? || s.phase == PublishedBy(s, PhaseKey(s)))
    && (s.phase.Published? ==>
          Inserted(store, s, s.phase.key, s.phase.read) && s.writes == map[s.phase.key := store.runs[s.phase.key]])
    && (s.phase.Finishing? && s.phase.status.BoundedSuccess? ==>
          && s.phase.gates.Some? && Inserted(store, s, s.phase.key, s.phase.gates.value)
          && s.writes == map[s.phase.key := store.runs[s.phase.key].(status := BoundedSuccess)])
    && (s.phase.Reported? && s.phase.status.BoundedSuccess? ==> HasStatus(store.runs, s.phase.key, BoundedSuccess))
  }

  function PhaseKey(s: Session): string { if s.phase.Finishing? then s.phase.key else "" }

  /** The session has inserted its snapshot, and its gates hold of the rows it has locked. */
  ghost predicate Inserted(store: Store, s: Session, key: string, f: Facts) {
    s.snapshot.Some? && Warranted(store, key, f) && Shows(s.snapshot.value, key, f.joined)
  }

  ghost predicate SessionSound(store: Store, s: Session) { WritesSound(store, s) && PhaseSound(store, s) }

  /** Locks are exclusive. */
  ghost predicate Exclusive(y: System) {
    forall p, q :: p in y.sessions && q in y.sessions && p != q ==> Disjoint(y.sessions[p], y.sessions[q])
  }

  ghost predicate Disjoint(s: Session, t: Session) {
    (forall key :: key in s.writes ==> key !in t.writes) && (s.snapshot.None? || t.snapshot.None?)
  }

  ghost predicate Inv(y: System) {
    SnapshotSound(y.store) && Exclusive(y) && forall p :: p in y.sessions ==> SessionSound(y.store, y.sessions[p])
  }

  // ---------------------------------------------------------------- what steps keep

  lemma PutKeeps(y: System, p: nat, s: Session)
    requires Inv(y) && SessionSound(y.store, s)
    requires forall key :: key in s.writes ==> RowFree(y, p, key)
    requires s.snapshot.Some? ==> TableFree(y, p)
    ensures Inv(Put(y, p, s))
  {
    hide SessionSound, SnapshotSound;
  }

  /** A session that keeps its locks, or some of them, needs no free rows. */
  lemma PutOwnKeeps(y: System, p: nat, s: Session)
    requires Inv(y) && p in y.sessions && SessionSound(y.store, s)
    requires s.writes.Keys <= y.sessions[p].writes.Keys && (s.snapshot.Some? ==> y.sessions[p].snapshot.Some?)
    ensures Inv(Put(y, p, s))
  {
    hide SessionSound, SnapshotSound;
    forall key | key in s.writes ensures RowFree(y, p, key) {
      assert key in y.sessions[p].writes;
      assert forall q :: q in y.sessions && q != p ==> Disjoint(y.sessions[p], y.sessions[q]);
    }
    if s.snapshot.Some? { assert forall q :: q in y.sessions && q != p ==> Disjoint(y.sessions[p], y.sessions[q]); }
    PutKeeps(y, p, s);
  }

  /** Publishing is visible at once and as a whole; what was published stays published. */
  lemma CommitKeepsStore(store: Store, s: Session)
    requires SnapshotSound(store) && SessionSound(store, s) && !s.phase.Published?
    ensures SnapshotSound(View(store, s))
    ensures forall key :: HasStatus(store.runs, key, BoundedSuccess) ==>
      HasStatus(View(store, s).runs, key, BoundedSuccess)
  {
    if s.snapshot.Some? {
      assert FullSnapshot(View(store, s).bounded, s.phase.key)
        && HasStatus(View(store, s).runs, s.phase.key, BoundedSuccess);
    } else if store.bounded != [] {
      var key :| FullSnapshot(store.bounded, key) && HasStatus(store.runs, key, BoundedSuccess);
      assert FullSnapshot(View(store, s).bounded, key) && HasStatus(View(store, s).runs, key, BoundedSuccess);
    }
  }

  lemma OtherKeepsSound(store: Store, s: Session, t: Session)
    requires SessionSound(store, s) && SessionSound(store, t) && Disjoint(s, t)
    requires forall key :: HasStatus(store.runs, key, BoundedSuccess) ==>
      HasStatus(View(store, s).runs, key, BoundedSuccess)
    ensures SessionSound(View(store, s), t)
  {
  }

  lemma SettleKeeps(y: System, p: nat, outcome: Outcome, phase: Phase)
    requires Inv(y) && p in y.sessions && !y.sessions[p].phase.Published?
    requires SessionSound(if outcome.LostBefore? then y.store else View(y.store, y.sessions[p]), At(phase))
    ensures Inv(Settle(y, p, outcome, phase))
  {
    hide SessionSound, SnapshotSound, View;
    var s := y.sessions[p];
    var next := Settle(y, p, outcome, phase);
    if !outcome.LostBefore? {
      CommitKeepsStore(y.store, s);
      forall q | q in y.sessions && q != p ensures SessionSound(next.store, y.sessions[q]) {
        assert Disjoint(s, y.sessions[q]);
        OtherKeepsSound(y.store, s, y.sessions[q]);
      }
    }
    forall q, r | q in next.sessions && r in next.sessions && q != r
      ensures Disjoint(next.sessions[q], next.sessions[r])
    {
      assert q != p && r != p ==> Disjoint(y.sessions[q], y.sessions[r]);
    }
  }

  lemma StartKeeps(y: System, p: nat, key: string, r: Request)
    requires Inv(y) && p in y.sessions && RowFree(y, p, key)
    ensures Inv(StepStart(y, p, key, r))
  {
    hide Inv, RowFree, TableFree;
    var row := StartRun(y.store, key, r);
    if row.Success? { PutKeeps(y, p, Session(Marking(key, r.anew), map[key := row.value], None)); }
  }

  lemma PublishKeeps(y: System, p: nat, key: string, target: int, f: Facts)
    requires Inv(y) && p in y.sessions && RowFree(y, p, key) && TableFree(y, p)
    ensures Inv(StepPublish(y, p, key, target, f))
  {
    hide Inv, RowFree, TableFree;
    PutKeeps(y, p, At(Failed(key, true)));
    if MayPublish(y.store, key, target, f) && SnapshotPasses(key, target, SnapshotOf(key, f.joined), f) {
      PutKeeps(y, p, Session(Published(key, f), map[key := y.store.runs[key]], Some(SnapshotOf(key, f.joined))));
    }
  }

  lemma OneRowKeeps(y: System, p: nat, key: string, phase: Phase, row: RunRow)
    requires Inv(y) && p in y.sessions && RowFree(y, p, key) && key in y.store.runs
    requires phase.Closing? || phase.Maintaining? || (phase.Finishing? && !phase.status.BoundedSuccess?)
    requires Follows(y.store.runs[key], row)
    requires row.status.BoundedSuccess? ==> y.store.runs[key].status.BoundedSuccess?
    ensures Inv(Put(y, p, Session(phase, map[key := row], None)))
  {
    hide Inv, RowFree, TableFree;
    PutKeeps(y, p, Session(phase, map[key := row], None));
  }

  lemma ReleaseKeeps(y: System, p: nat, phase: Phase)
    requires Inv(y) && p in y.sessions && !phase.Published? && !(phase.Finishing? && phase.status.BoundedSuccess?)
    requires phase.Reported? && phase.status.BoundedSuccess? ==> HasStatus(y.store.runs, phase.key, BoundedSuccess)
    ensures Inv(Put(y, p, At(phase)))
  {
    hide Inv;
    PutOwnKeeps(y, p, At(phase));
  }

  lemma FinishPublishedKeeps(y: System, p: nat)
    requires Inv(y) && p in y.sessions && y.sessions[p].phase.Published?
      && y.sessions[p].phase.key in y.sessions[p].writes
    ensures Inv(Step(y, p, FinishPublished))
  {
    var s := y.sessions[p];
    var key := s.phase.key;
    assert SessionSound(y.store, s);
    var t := Session(Finishing(key, BoundedSuccess, Some(s.phase.read)),
                     s.writes[key := FinishRun(s.writes[key], BoundedSuccess)], s.snapshot);
    assert SessionSound(y.store, t);
    hide SessionSound;
    assert t.writes.Keys == s.writes.Keys;
    PutOwnKeeps(y, p, t);
  }

  lemma MarkerKeeps(y: System, p: nat, outcome: Outcome)
    requires Inv(y) && p in y.sessions && y.sessions[p].phase.Marking?
      && y.sessions[p].phase.key in y.sessions[p].writes
    ensures Inv(Step(y, p, CommitMarker(outcome)))
  {
    hide Inv, SnapshotSound;
    var s := y.sessions[p];
    var phase := if outcome.Acknowledged? then AfterMarker(s.phase.key, s.phase.anew, s.writes[s.phase.key]) else Dead;
    SettleKeeps(y, p, outcome, phase);
  }

  lemma CommitKeeps(y: System, p: nat, outcome: Outcome)
    requires Inv(y) && p in y.sessions && y.sessions[p].phase.Finishing?
    ensures Inv(Step(y, p, Commit(outcome)))
  {
    var s := y.sessions[p];
    assert SessionSound(y.store, s);
    hide Inv, SnapshotSound;
    var phase :=
      if outcome.Acknowledged? then Reported(s.phase.key, s.phase.status)
      else Failed(s.phase.key, Terminal(s.phase.status));
    SettleKeeps(y, p, outcome, phase);
  }

  /** Every step of every process, whatever fails, keeps the invariant. */
  lemma StepKeeps(y: System, p: nat, a: Action)
    requires Inv(y)
    ensures Inv(Step(y, p, a))
  {
    hide Inv, RowFree, TableFree, StepStart, StepPublish;
    if p in y.sessions {
      var s := y.sessions[p];
      match a
      case Start(key, r) => if RowFree(y, p, key) { StartKeeps(y, p, key, r); }
      case CommitMarker(outcome) => if s.phase.Marking? && s.phase.key in s.writes { MarkerKeeps(y, p, outcome); }
      case Publish(target, f) =>
        if s.phase.Crawling? && RowFree(y, p, s.phase.key) && TableFree(y, p) {
          PublishKeeps(y, p, s.phase.key, target, f);
        }
      case FinishPublished => if s.phase.Published? && s.phase.key in s.writes { FinishPublishedKeeps(y, p); }
      case FinishOther(status) =>
        if s.phase.Crawling? && !status.BoundedSuccess? && s.phase.key in y.store.runs && RowFree(y, p, s.phase.key) {
          OneRowKeeps(y, p, s.phase.key, Finishing(s.phase.key, status, None),
                      FinishRun(y.store.runs[s.phase.key], status));
        }
      case Commit(outcome) => if s.phase.Finishing? { CommitKeeps(y, p, outcome); }
      case Fault =>
        if s.phase.Crawling? || s.phase.Published? || s.phase.Finishing? {
          ReleaseKeeps(y, p, Step(y, p, a).sessions[p].phase);
        }
      case Reconcile(_) =>
        if s.phase.Failed? && s.phase.finalizing { ReleaseKeeps(y, p, Step(y, p, a).sessions[p].phase); }
      case CloseError =>
        if s.phase.Failed? && !s.phase.finalizing && s.phase.key in y.store.runs && RowFree(y, p, s.phase.key) {
          OneRowKeeps(y, p, s.phase.key, Closing(s.phase.key), FinishRun(y.store.runs[s.phase.key], Error));
        }
      case CommitClose(outcome) => if s.phase.Closing? { SettleQuietly(y, p, outcome, Dead); }
      case Reject(key) =>
        if key in y.store.runs && RowFree(y, p, key) {
          OneRowKeeps(y, p, key, Maintaining, RejectRun(y.store.runs[key]));
        }
      case Cleanup(key) =>
        if key in y.store.runs && RowFree(y, p, key) {
          OneRowKeeps(y, p, key, Maintaining, CleanupRun(y.store.runs[key]));
        }
      case CommitMaintenance(outcome) => if s.phase.Maintaining? { SettleQuietly(y, p, outcome, Idle); }
      case Crash => ReleaseKeeps(y, p, Dead);
    }
  }

  lemma SettleQuietly(y: System, p: nat, outcome: Outcome, phase: Phase)
    requires Inv(y) && p in y.sessions && (phase.Dead? || phase.Idle?) && !y.sessions[p].phase.Published?
    ensures Inv(Settle(y, p, outcome, phase))
  {
    hide Inv, SnapshotSound, View;
    SettleKeeps(y, p, outcome, phase);
  }

  // ---------------------------------------------------------------- over every run

  ghost function Execute(y: System, steps: seq<(nat, Action)>): System {
    if steps == [] then y
    else Step(Execute(y, steps[..|steps| - 1]), steps[|steps| - 1].0, steps[|steps| - 1].1)
  }

  /** Where everything starts: no snapshot, or a published one, and processes that have done nothing. */
  ghost predicate Initial(y: System) {
    SnapshotSound(y.store) && forall p :: p in y.sessions ==> y.sessions[p] == At(Idle)
  }

  lemma {:induction false} ExecuteKeeps(y: System, steps: seq<(nat, Action)>)
    requires Inv(y)
    ensures Inv(Execute(y, steps))
  {
    hide Inv, Step;
    if steps != [] {
      ExecuteKeeps(y, steps[..|steps| - 1]);
      StepKeeps(Execute(y, steps[..|steps| - 1]), steps[|steps| - 1].0, steps[|steps| - 1].1);
    }
  }

  /** After any interleaving of steps, faults, crashes and unanswered commits, the committed snapshot
      is empty or exactly the formal number of rows of one published run. */
  lemma PublicationIsAllOrNothing(y: System, steps: seq<(nat, Action)>)
    requires Initial(y)
    ensures SnapshotSound(Execute(y, steps).store)
  {
    hide Step;
    InitialInv(y);
    ExecuteKeeps(y, steps);
  }

  lemma InitialInv(y: System)
    requires Initial(y)
    ensures Inv(y)
  {
  }

  /** A process reports a published dataset only while the run is committed as published. */
  lemma ReportedMeansCommitted(y: System, steps: seq<(nat, Action)>, p: nat, key: string)
    requires Initial(y)
    requires p in Execute(y, steps).sessions && Execute(y, steps).sessions[p].phase == Reported(key, BoundedSuccess)
    ensures HasStatus(Execute(y, steps).store.runs, key, BoundedSuccess)
  {
    hide Step;
    InitialInv(y);
    ExecuteKeeps(y, steps);
    assert SessionSound(Execute(y, steps).store, Execute(y, steps).sessions[p]);
  }

  /** A step changes the committed store only by settling what its own session wrote. */
  lemma StepCommitsOwnWrites(y: System, p: nat, a: Action)
    ensures Step(y, p, a).store == y.store || (p in y.sessions && Step(y, p, a).store == View(y.store, y.sessions[p]))
  {
    hide RowFree, TableFree, View, MayPublish, SnapshotPasses, StartRun, FinishRun;
  }

  lemma StepAbsorbs(y: System, p: nat, a: Action, key: string)
    requires Inv(y) && HasStatus(y.store.runs, key, BoundedSuccess)
    ensures HasStatus(Step(y, p, a).store.runs, key, BoundedSuccess)
  {
    hide Step, SnapshotSound, PhaseSound;
    StepCommitsOwnWrites(y, p, a);
    if p in y.sessions { CommitKeepsStatus(y.store, y.sessions[p], key); }
  }

  lemma CommitKeepsStatus(store: Store, s: Session, key: string)
    requires HasStatus(store.runs, key, BoundedSuccess)
    ensures SessionSound(store, s) ==> HasStatus(View(store, s).runs, key, BoundedSuccess)
  {
  }

  /** The published status is absorbing: starting, finishing, rejecting and cleaning up keep it. */
  lemma {:induction false} PublishedIsAbsorbing(y: System, steps: seq<(nat, Action)>, key: string)
    requires Inv(y) && HasStatus(y.store.runs, key, BoundedSuccess)
    ensures HasStatus(Execute(y, steps).store.runs, key, BoundedSuccess)
  {
    hide Inv, Step, HasStatus;
    if steps != [] {
      var before := steps[..|steps| - 1];
      PublishedIsAbsorbing(y, before, key);
      ExecuteKeeps(y, before);
      StepAbsorbs(Execute(y, before), steps[|steps| - 1].0, steps[|steps| - 1].1, key);
    }
  }

  /** A snapshot changes only by the commit of a session whose gates hold of the rows it commits: it then
      shows the parts those gates counted, and the run has changed its status and nothing else. */
  lemma SnapshotAndStatusChangeTogether(y: System, p: nat, a: Action)
    requires Inv(y) && Step(y, p, a).store.bounded != y.store.bounded
    ensures p in y.sessions && y.sessions[p].phase.Finishing? && y.sessions[p].phase.gates.Some?
    ensures var key, f := y.sessions[p].phase.key, y.sessions[p].phase.gates.value;
      && Warranted(y.store, key, f) && Shows(Step(y, p, a).store.bounded, key, f.joined)
      && Step(y, p, a).store.runs == y.store.runs[key := y.store.runs[key].(status := BoundedSuccess)]
  {
    hide Step, SnapshotSound, Exclusive, Warranted, Shows;
    StepCommitsOwnWrites(y, p, a);
    assert SessionSound(y.store, y.sessions[p]);
    StepCommitsUnpublished(y, p, a);
  }

  /** A session that has inserted its snapshot commits nothing before the status is written. */
  lemma StepCommitsUnpublished(y: System, p: nat, a: Action)
    ensures p in y.sessions && y.sessions[p].phase.Published? ==> Step(y, p, a).store == y.store
  {
    hide RowFree, TableFree, View, MayPublish, SnapshotPasses, StartRun, FinishRun;
  }

  /** A run that becomes published does so by the same kind of step. */
  lemma PublishedOnlyIfWarranted(y: System, p: nat, a: Action, key: string)
    requires Inv(y)
    requires HasStatus(Step(y, p, a).store.runs, key, BoundedSuccess) && !HasStatus(y.store.runs, key, BoundedSuccess)
    ensures p in y.sessions && y.sessions[p].phase.Finishing? && y.sessions[p].phase.key == key
    ensures y.sessions[p].phase.gates.Some? && Warranted(y.store, key, y.sessions[p].phase.gates.value)
    ensures Shows(Step(y, p, a).store.bounded, key, y.sessions[p].phase.gates.value.joined)
  {
    hide Step, SnapshotSound, Exclusive, Warranted, Shows;
    StepCommitsOwnWrites(y, p, a);
    assert SessionSound(y.store, y.sessions[p]);
  }

  /** A run that ends published over any run of the system was published by a commit whose gates held. */
  lemma {:induction false} PublishedRunWasWarranted(y: System, steps: seq<(nat, Action)>, key: string)
      returns (n: nat, f: Facts)
    requires Inv(y)
    requires HasStatus(Execute(y, steps).store.runs, key, BoundedSuccess)
    requires !HasStatus(y.store.runs, key, BoundedSuccess)
    ensures n < |steps| && Warranted(Execute(y, steps[..n]).store, key, f)
    ensures Shows(Execute(y, steps[..n + 1]).store.bounded, key, f.joined)
  {
    hide Step, Inv, Warranted, Shows;
    var before := steps[..|steps| - 1];
    ExecuteKeeps(y, before);
    if HasStatus(Execute(y, before).store.runs, key, BoundedSuccess) {
      n, f := PublishedRunWasWarranted(y, before, key);
      assert before[..n] == steps[..n] && before[..n + 1] == steps[..n + 1];
    } else {
      var (p, a) := steps[|steps| - 1];
      n := |steps| - 1;
      PublishedOnlyIfWarranted(Execute(y, before), p, a, key);
      f := Execute(y, before).sessions[p].phase.gates.value;
      assert steps[..n] == before && steps[..n + 1] == steps;
    }
  }

  /** A process that crawls and finds its row and the table free inserts the snapshot exactly when it is warranted. */
  lemma PublishGoesThroughIff(y: System, p: nat, target: int, f: Facts)
    requires p in y.sessions && y.sessions[p].phase.Crawling?
    requires RowFree(y, p, y.sessions[p].phase.key) && TableFree(y, p)
    ensures var key := y.sessions[p].phase.key;
      var next := Step(y, p, Publish(target, f)).sessions[p];
      && (next.phase == Published(key, f) <==> target == 10_000 && Warranted(y.store, key, f))
      && (next.phase == Published(key, f) ==> next.snapshot.Some? && Shows(next.snapshot.value, key, f.joined))
      && (next.phase != Published(key, f) ==> next == At(Failed(key, true)))
  {
    hide RowFree, TableFree;
  }

  /** A warranted publication that nothing disturbs commits snapshot and status, unless its commit is lost
      before it takes effect; it is reported at once, or, when only the answer was lost, after reading it back. */
  lemma PublicationGoesThrough(y: System, p: nat, f: Facts, outcome: Outcome)
    requires p in y.sessions && y.sessions[p].phase.Crawling? && Warranted(y.store, y.sessions[p].phase.key, f)
    requires RowFree(y, p, y.sessions[p].phase.key) && TableFree(y, p)
    ensures var key := y.sessions[p].phase.key;
      var end := Step(Step(Step(y, p, Publish(10_000, f)), p, FinishPublished), p, Commit(outcome));
      && (outcome == LostBefore ==> end.store == y.store)
      && (outcome != LostBefore ==>
            && Shows(end.store.bounded, key, f.joined) && end.store.desired == y.store.desired
            && end.store.runs == y.store.runs[key := y.store.runs[key].(status := BoundedSuccess)])
      && end.sessions[p] == At(if outcome == Acknowledged then Reported(key, BoundedSuccess) else Failed(key, true))
      && (outcome == LostAfter ==> Step(end, p, Reconcile(true)).sessions[p] == At(Reported(key, BoundedSuccess)))
  {
    hide RowFree, TableFree, Shows;
    var key := y.sessions[p].phase.key;
    PublishGoesThroughIff(y, p, 10_000, f);
    var inserted := Step(y, p, Publish(10_000, f));
    assert inserted.sessions[p].phase == Published(key, f);
    var finished := Step(inserted, p, FinishPublished);
    assert finished.sessions[p].writes == map[key := y.store.runs[key].(status := BoundedSuccess)];
  }

  /** Over every step a run stays the run it was, a running one keeps its owner, a published one its whole
      row, and a complete one is touched only by a fresh start. */
  lemma RowsFollow(y: System, p: nat, a: Action, key: string)
    requires Inv(y) && key in y.store.runs
    ensures key in Step(y, p, a).store.runs && Follows(y.store.runs[key], Step(y, p, a).store.runs[key])
  {
    hide Step, SnapshotSound, Exclusive, PhaseSound;
    StepCommitsOwnWrites(y, p, a);
    if p in y.sessions { assert WritesSound(y.store, y.sessions[p]); }
  }

  /** The full-run status is not absorbing: starting the same run anew takes it away. */
  lemma SuccessIsNotAbsorbing(store: Store, key: string, r: Request)
    requires HasStatus(store.runs, key, FullSuccess) && SameIdentity(store.runs[key], r) && r.anew && r.kind.Full?
    ensures StartRun(store, key, r).Success? && StartRun(store, key, r).value.status == Running
    ensures StartRun(store, key, r.(anew := false)) == Success(store.runs[key])
  {
  }
}
