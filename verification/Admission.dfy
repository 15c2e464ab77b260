/**
Keeping schema migrations and crawls apart.  A crawl takes the admission lock only until its running
marker is durable; a migration takes the same lock and refuses to start while a marker stands.
Crawlers, migration runners, schedulers and supervisors interleave, and any of them may crash.
*/
module Admission {
  import opened Wrappers

  // ---------------------------------------------------------------- the named lock of a session

  /** The server's named locks: owner and how often it was taken. */
  class LockServer {
    var owner: map<string, (nat, nat)>
    var open: set<nat>

    constructor ()
      ensures owner == map[] && open == {}
    {
      owner, open := map[], {};
    }

    ghost predicate Valid()
      reads this
    {
      forall name :: name in owner ==> owner[name].0 in open && owner[name].1 > 0
    }

    predicate Holds(session: nat, name: string)
      reads this
    {
      name in owner && owner[name].0 == session
    }

    /** `GET_LOCK(name, 0)`: free, or already held by the same session. */
    method GetLock(session: nat, name: string) returns (acquired: bool)
      requires Valid() && session in open
      modifies this`owner
      ensures Valid()
      ensures acquired <==> old(name !in owner || owner[name].0 == session)
      ensures acquired ==>
        owner == old(owner)[name := (session, (if old(Holds(session, name)) then old(owner)[name].1 else 0) + 1)]
      ensures !acquired ==> owner == old(owner)
    {
      if name in owner && owner[name].0 != session { return false; }
      var times := if name in owner then owner[name].1 else 0;
      owner := owner[name := (session, times + 1)];
      return true;
    }

    /** `RELEASE_LOCK(name)`: one level of the caller's own lock. */
    method ReleaseLock(session: nat, name: string) returns (released: bool)
      requires Valid() && session in open
      modifies this`owner
      ensures Valid()
      ensures released <==> old(Holds(session, name))
      ensures released ==>
        owner == if old(owner)[name].1 == 1 then old(owner) - {name}
                 else old(owner)[name := (session, old(owner)[name].1 - 1)]
      ensures !released ==> owner == old(owner)
    {
      if name !in owner || owner[name].0 != session { return false; }
      var times := owner[name].1;
      owner := if times == 1 then owner - {name} else owner[name := (session, times - 1)];
      return true;
    }

    /** Closing a connection frees every lock of its session. */
    method Close(session: nat)
      requires Valid()
      modifies this
      ensures Valid() && open == old(open) - {session}
      ensures owner == map name | name in old(owner) && old(owner)[name].0 != session :: old(owner)[name]
    {
      owner := map name | name in owner && owner[name].0 != session :: owner[name];
      open := open - {session};
    }
  }

  const SCHEMA_LOCK := "partsouq:catalog-migrations:"

  /** `acquire_catalog_writer_admission`: the lock's name, or the refusal. */
  method AcquireAdmission(server: LockServer, session: nat, database: string) returns (r: Result<string>)
    requires server.Valid() && session in server.open
    modifies server
    ensures server.Valid() && server.open == old(server.open)
    ensures r.Success?
       <==> database != "" &&
            old(SCHEMA_LOCK + database !in server.owner || server.Holds(session, SCHEMA_LOCK + database))
    ensures r.Success? ==> r.value == SCHEMA_LOCK + database && server.Holds(session, r.value)
    ensures r.Success? && !old(server.Holds(session, SCHEMA_LOCK + database)) ==>
      server.owner == old(server.owner)[r.value := (session, 1)]
    ensures r.Failure? ==> server.owner == old(server.owner)
  {
    if database == "" { return Failure("writer connection must select an explicit database"); }
    var acquired := server.GetLock(session, SCHEMA_LOCK + database);
    if !acquired { return Failure("catalog schema migration is in progress"); }
    return Success(SCHEMA_LOCK + database);
  }

  /** `catalog_writer_admission` around a body that may fail, whose release may fail or lose its answer:
      a session that did not hold the lock before does not hold it afterwards, on any path, and no other
      session's lock is touched. */
  method WithAdmission(server: LockServer, session: nat, database: string, bodyFails: bool, releaseLost: bool)
      returns (r: Result<bool>)
    requires server.Valid() && session in server.open && !server.Holds(session, SCHEMA_LOCK + database)
    modifies server
    ensures server.Valid() && !server.Holds(session, SCHEMA_LOCK + database)
    ensures forall name :: name in old(server.owner) && old(server.owner)[name].0 != session ==>
      name in server.owner && server.owner[name] == old(server.owner)[name]
    ensures r.Success? ==> session in server.open && server.owner == old(server.owner) && !bodyFails && !releaseLost
    ensures r.Success? ==> database != "" && old(SCHEMA_LOCK + database !in server.owner)
  {
    var lock := AcquireAdmission(server, session, database);
    if lock.Failure? { return Failure(lock.message); }
    var released := false;
    if !releaseLost { released := server.ReleaseLock(session, lock.value); }
    if !released {
      server.Close(session);
      return Failure("failed to release catalog writer admission lock");
    }
    if bodyFails { return Failure("initialization failed"); }
    return Success(true);
  }

  // ---------------------------------------------------------------- rows

  datatype Status = Running | FullSuccess | BoundedSuccess | Closed

  /** A row of `crawl_runs`; `older` says that it started before the current month. */
  datatype RunRow = RunRow(status: Status, job: Option<nat>, older: bool)

  datatype JobStatus = JobRunning | JobFailed | JobDone

  datatype Plan = Plan(key: string, job: Option<nat>, anew: bool)

  /** `start_run` as far as the marker goes. */
  function StartRow(runs: map<string, RunRow>, p: Plan): Option<RunRow> {
    if p.key !in runs then Some(RunRow(Running, p.job, false))
    else
      var row := runs[p.key];
      if row.status.Running? && row.job != p.job then None
      else if p.anew then if row.status.BoundedSuccess? then None else Some(RunRow(Running, p.job, false))
      else if row.status.FullSuccess? || row.status.BoundedSuccess? then Some(row)
      else Some(RunRow(Running, p.job, row.older))
  }

  // ---------------------------------------------------------------- all processes

  /** A crawler: holding the runtime lock, holding the admission lock with its marker uncommitted or
      committed, crawling under its marker, or finished. */
  datatype Crawl =
    | Leased(plan: Plan)
    | Admitted(plan: Plan)
    | Marked(plan: Plan)
    | Crawling(plan: Plan)
    | Finished(plan: Plan)

  datatype Actor = Crawler(c: nat) | Migrator(m: nat)

  /** A migration runner between its lock and the end of its check, or executing statements. */
  datatype Migration = Checking | Executing

  datatype System = System(
    admission: Option<Actor>, runtime: Option<nat>, runs: map<string, RunRow>, jobs: map<nat, JobStatus>,
    crawls: map<nat, Crawl>, migrations: map<nat, Migration>)

  datatype Event =
    | StartJob(j: nat)
    | FailJob(j: nat)
    | EndJob(j: nat)
    | Lease(c: nat, plan: Plan)
    | Admit(c: nat)
    | CommitMarker(c: nat)
    | LeaveAdmission(c: nat)
    | FinishRun(c: nat, status: Status)
    | LeaveRuntime(c: nat)
    | CrashCrawler(c: nat)
    | LockSchema(m: nat)
    | Check(m: nat)
    | LeaveSchema(m: nat)
    | CrashMigrator(m: nat)
    | Cleanup
    | NewMonth

  /** The crawler is under its committed marker. */
  predicate UnderMarker(cr: Crawl) { cr.Marked? || cr.Crawling? }

  predicate LiveFor(s: System, j: nat) {
    exists c :: c in s.crawls && s.crawls[c].plan.job == Some(j) && !s.crawls[c].Finished?
  }

  /** A running marker that the preflight of a migration may repair. */
  predicate Repairable(s: System, key: string)
    requires key in s.runs
  {
    var row := s.runs[key];
    && row.job.Some? && row.job.value in s.jobs && s.jobs[row.job.value].JobFailed?
    && forall other :: other in s.runs && s.runs[other].job == row.job ==> other == key
  }

  /** The preflight: every running marker is repairable and no scheduled job is running. */
  predicate MayMigrate(s: System) {
    && (forall key :: key in s.runs && s.runs[key].status.Running? ==> Repairable(s, key))
    && (forall j :: j in s.jobs ==> !s.jobs[j].JobRunning?)
  }

  predicate Enabled(s: System, e: Event) {
    match e
    case StartJob(j) => j !in s.jobs
    case FailJob(j) => j in s.jobs && s.jobs[j].JobRunning? && !LiveFor(s, j)
    case EndJob(j) => j in s.jobs && s.jobs[j].JobRunning? && !LiveFor(s, j)
    case Lease(c, plan) =>
      c !in s.crawls && s.runtime.None?
        && (plan.job.Some? ==> plan.job.value in s.jobs && s.jobs[plan.job.value].JobRunning?)
    case Admit(c) => c in s.crawls && s.crawls[c].Leased? && s.admission.None?
    case CommitMarker(c) => c in s.crawls && s.crawls[c].Admitted? && StartRow(s.runs, s.crawls[c].plan).Some?
    case LeaveAdmission(c) => c in s.crawls && (s.crawls[c].Marked? || s.crawls[c].Admitted?)
    case FinishRun(c, status) => c in s.crawls && s.crawls[c].Crawling? && !status.Running?
    case LeaveRuntime(c) => c in s.crawls && (s.crawls[c].Finished? || s.crawls[c].Leased?)
    case CrashCrawler(c) => c in s.crawls
    case LockSchema(m) => m !in s.migrations && s.admission.None?
    case Check(m) => m in s.migrations && s.migrations[m].Checking? && MayMigrate(s)
    case LeaveSchema(m) => m in s.migrations
    case CrashMigrator(m) => m in s.migrations
    case Cleanup => s.admission.None?
    case NewMonth => true
  }

  function WithCrawl(s: System, c: nat, cr: Crawl): System { s.(crawls := s.crawls[c := cr]) }

  /** A crawler that is gone: its sessions are closed, so both of its locks are free. */
  function Gone(s: System, c: nat): System {
    s.(crawls := s.crawls - {c},
       runtime := if s.runtime == Some(c) then None else s.runtime,
       admission := if s.admission == Some(Crawler(c)) then None else s.admission)
  }

  /** What `finish_run` leaves of a row: a success is never downgraded. */
  function Finish(row: RunRow, status: Status): RunRow {
    if row.status.FullSuccess? || row.status.BoundedSuccess? then row else row.(status := status)
  }

  function Repaired(s: System): map<string, RunRow> {
    map key | key in s.runs :: if s.runs[key].status.Running? then s.runs[key].(status := Closed) else s.runs[key]
  }

  function Cleaned(runs: map<string, RunRow>): map<string, RunRow> {
    map key | key in runs ::
      if runs[key].status.Running? && runs[key].older then runs[key].(status := Closed) else runs[key]
  }

  function Next(s: System, e: Event): System
    requires Enabled(s, e)
  {
    match e
    case StartJob(j) => s.(jobs := s.jobs[j := JobRunning])
    case FailJob(j) => s.(jobs := s.jobs[j := JobFailed])
    case EndJob(j) => s.(jobs := s.jobs[j := JobDone])
    case Lease(c, plan) => WithCrawl(s, c, Leased(plan)).(runtime := Some(c))
    case Admit(c) => WithCrawl(s, c, Admitted(s.crawls[c].plan)).(admission := Some(Crawler(c)))
    case CommitMarker(c) =>
      var plan := s.crawls[c].plan;
      var row := StartRow(s.runs, plan).value;
      if row.status.Running? then WithCrawl(s, c, Marked(plan)).(runs := s.runs[plan.key := row])
      else WithCrawl(s, c, Finished(plan)).(admission := None)
    case LeaveAdmission(c) =>
      var plan := s.crawls[c].plan;
      WithCrawl(s, c, if s.crawls[c].Marked? then Crawling(plan) else Finished(plan)).(admission := None)
    case FinishRun(c, status) =>
      var plan := s.crawls[c].plan;
      var t := WithCrawl(s, c, Finished(plan));
      if plan.key in s.runs then t.(runs := s.runs[plan.key := Finish(s.runs[plan.key], status)]) else t
    case LeaveRuntime(c) => Gone(s, c)
    case CrashCrawler(c) => Gone(s, c)
    case LockSchema(m) => s.(migrations := s.migrations[m := Checking], admission := Some(Migrator(m)))
    case Check(m) => s.(migrations := s.migrations[m := Executing], runs := Repaired(s))
    case LeaveSchema(m) =>
      s.(migrations := s.migrations - {m}, admission := if s.admission == Some(Migrator(m)) then None else s.admission)
    case CrashMigrator(m) =>
      s.(migrations := s.migrations - {m}, admission := if s.admission == Some(Migrator(m)) then None else s.admission)
    case Cleanup => s.(runs := Cleaned(s.runs))
    case NewMonth => s.(runs := map key | key in s.runs :: s.runs[key].(older := true))
  }

  ghost predicate IsRun(states: seq<System>, events: seq<Event>) {
    && |states| == |events| + 1
    && forall i :: 0 <= i < |events| ==> Enabled(states[i], events[i]) && states[i + 1] == Next(states[i], events[i])
  }

  predicate Start(s: System) { s.admission.None? && s.runtime.None? && s.crawls == map[] && s.migrations == map[] }

  // ---------------------------------------------------------------- exclusion

  ghost predicate LocksHeld(s: System) {
    && (forall c :: c in s.crawls ==> s.runtime == Some(c))
    && (forall c :: c in s.crawls && (s.crawls[c].Admitted? || s.crawls[c].Marked?) ==> s.admission == Some(Crawler(c)))
    && (forall m :: m in s.migrations ==> s.admission == Some(Migrator(m)))
  }

  /** A crawl that is not finished belongs to a job that still runs, if it belongs to one. */
  ghost predicate JobsLive(s: System) {
    forall c :: c in s.crawls && !s.crawls[c].Finished? ==> JobLives(s, s.crawls[c].plan)
  }

  predicate JobLives(s: System, p: Plan) { p.job.Some? ==> p.job.value in s.jobs && s.jobs[p.job.value].JobRunning? }

  predicate MarkerStands(s: System, p: Plan) {
    p.key in s.runs && s.runs[p.key].status.Running? && s.runs[p.key].job == p.job
  }

  /** A crawl that belongs to no job keeps its running marker. */
  ghost predicate DirectMarkersStand(s: System) {
    forall c :: c in s.crawls && UnderMarker(s.crawls[c]) && s.crawls[c].plan.job.None? ==>
      MarkerStands(s, s.crawls[c].plan)
  }

  ghost predicate NoMarkerWhileMigrating(s: System) {
    forall m, key :: m in s.migrations && s.migrations[m].Executing? && key in s.runs ==> !s.runs[key].status.Running?
  }

  /** A migration executes while a crawl is between its committed marker and its committed end. */
  predicate Overrun(s: System) {
    exists m, c :: m in s.migrations && s.migrations[m].Executing? && c in s.crawls && UnderMarker(s.crawls[c])
  }

  ghost predicate Inv(s: System) { LocksHeld(s) && JobsLive(s) && DirectMarkersStand(s) && !Overrun(s) }

  /** No crawl that belongs to no job works under a running marker from before this month. */
  ghost predicate MarkersAreRecent(s: System) {
    forall c :: c in s.crawls && UnderMarker(s.crawls[c]) && s.crawls[c].plan.job.None? ==>
      !Stale(s, s.crawls[c].plan.key)
  }

  /** What the supervisor's cleanup clears. */
  predicate Stale(s: System, key: string) { key in s.runs && s.runs[key].status.Running? && s.runs[key].older }

  lemma LocksStep(s: System, e: Event)
    requires LocksHeld(s) && Enabled(s, e)
    ensures LocksHeld(Next(s, e))
  {
    hide MayMigrate, Repairable, LiveFor, StartRow, Repaired, Cleaned;
  }

  lemma JobsStep(s: System, e: Event)
    requires JobsLive(s) && Enabled(s, e)
    ensures JobsLive(Next(s, e))
  {
    hide MayMigrate, Repairable, StartRow, Repaired, Cleaned;
    var t := Next(s, e);
    forall c | c in t.crawls && !t.crawls[c].Finished? ensures JobLives(t, t.crawls[c].plan) {
      assert c in s.crawls && !s.crawls[c].Finished? ==> JobLives(s, s.crawls[c].plan);
    }
  }

  lemma MarkersStep(s: System, e: Event)
    requires LocksHeld(s) && DirectMarkersStand(s) && Enabled(s, e) && (e.Cleanup? ==> MarkersAreRecent(s))
    ensures DirectMarkersStand(Next(s, e))
  {
    var t := Next(s, e);
    forall c | c in t.crawls && UnderMarker(t.crawls[c]) && t.crawls[c].plan.job.None?
      ensures MarkerStands(t, t.crawls[c].plan)
    {
      assert c in s.crawls && UnderMarker(s.crawls[c]) && s.crawls[c].plan.job.None? ==>
        MarkerStands(s, s.crawls[c].plan);
      var key := t.crawls[c].plan.key;
      assert e.Check? && key in s.runs && s.runs[key].status.Running? ==> Repairable(s, key);
    }
  }

  lemma MigratingStep(s: System, e: Event)
    requires LocksHeld(s) && NoMarkerWhileMigrating(s) && Enabled(s, e)
    ensures NoMarkerWhileMigrating(Next(s, e))
  {
    hide MayMigrate, Repairable, LiveFor;
    var t := Next(s, e);
    forall m, key | m in t.migrations && t.migrations[m].Executing? && key in t.runs
      ensures !t.runs[key].status.Running?
    {
      assert m in s.migrations && s.migrations[m].Executing? && key in s.runs ==> !s.runs[key].status.Running?;
    }
  }

  /** A preflight never passes over a live crawl: the marker of a direct crawl stands and cannot be
      repaired, and the job of any other still runs. */
  lemma OverrunStep(s: System, e: Event)
    requires Inv(s) && Enabled(s, e)
    ensures !Overrun(Next(s, e))
  {
    hide LiveFor, StartRow, Repaired, Cleaned;
    var t := Next(s, e);
    forall m, c | m in t.migrations && t.migrations[m].Executing? && c in t.crawls ensures !UnderMarker(t.crawls[c]) {
      assert c in s.crawls && !s.crawls[c].Finished? ==> JobLives(s, s.crawls[c].plan);
      assert c in s.crawls && UnderMarker(s.crawls[c]) && s.crawls[c].plan.job.None? ==>
        MarkerStands(s, s.crawls[c].plan);
      var key := t.crawls[c].plan.key;
      assert e.Check? && key in s.runs && s.runs[key].status.Running? ==> Repairable(s, key);
    }
  }

  ghost predicate CleanupsAreRecent(states: seq<System>, events: seq<Event>) {
    |states| > |events| && forall i :: 0 <= i < |events| && events[i].Cleanup? ==> MarkersAreRecent(states[i])
  }

  lemma {:induction false} InvAlways(states: seq<System>, events: seq<Event>, i: nat)
    requires IsRun(states, events) && Inv(states[0]) && CleanupsAreRecent(states, events) && i < |states|
    ensures Inv(states[i])
  {
    hide Enabled, Next, LocksHeld, JobsLive, DirectMarkersStand, Overrun, MarkersAreRecent;
    if i > 0 {
      var s, e := states[i - 1], events[i - 1];
      InvAlways(states, events, i - 1);
      assert Enabled(s, e) && states[i - 1 + 1] == Next(s, e);
      LocksStep(s, e);
      JobsStep(s, e);
      MarkersStep(s, e);
      OverrunStep(s, e);
    }
  }

  lemma InvStart(s: System)
    requires Start(s)
    ensures Inv(s)
  {
  }

  /** While a migration executes, no crawl is between its committed marker and its committed end: in
      every interleaving in which no cleanup clears the marker of a live crawl without a job. */
  lemma MigrationsAndCrawlsExclude(states: seq<System>, events: seq<Event>, i: nat)
    requires IsRun(states, events) && Start(states[0]) && CleanupsAreRecent(states, events) && i < |states|
    ensures !Overrun(states[i])
  {
    InvStart(states[0]);
    InvAlways(states, events, i);
  }

  /** Two migrations never execute together, and at most one crawler is alive. */
  lemma OneOfEach(states: seq<System>, events: seq<Event>, i: nat)
    requires IsRun(states, events) && Start(states[0]) && i < |states|
    ensures forall m, n :: m in states[i].migrations && n in states[i].migrations ==> m == n
    ensures forall c, d :: c in states[i].crawls && d in states[i].crawls ==> c == d
  {
    LocksAlways(states, events, i);
  }

  lemma {:induction false} LocksAlways(states: seq<System>, events: seq<Event>, i: nat)
    requires IsRun(states, events) && Start(states[0]) && i < |states|
    ensures LocksHeld(states[i])
  {
    hide Enabled, Next;
    if i > 0 {
      LocksAlways(states, events, i - 1);
      assert Enabled(states[i - 1], events[i - 1]) && states[i - 1 + 1] == Next(states[i - 1], events[i - 1]);
      LocksStep(states[i - 1], events[i - 1]);
    }
  }

  // ---------------------------------------------------------------- exactly when a cleanup is harmless

  /** Some continuation without another harmful cleanup executes a migration under a live crawl. */
  ghost predicate MayOverrun(s: System) {
    exists states: seq<System>, events: seq<Event> :: Continues(s, states, events) && Overrun(states[|events|])
  }

  ghost predicate Continues(s: System, states: seq<System>, events: seq<Event>) {
    IsRun(states, events) && states[0] == s && CleanupsAreRecent(states, events)
  }

  lemma OverrunNow(s: System)
    requires Overrun(s)
    ensures MayOverrun(s)
  {
    assert Continues(s, [s], []);
  }

  lemma OverrunLater(s: System, e: Event)
    requires Enabled(s, e) && (e.Cleanup? ==> MarkersAreRecent(s)) && MayOverrun(Next(s, e))
    ensures MayOverrun(s)
  {
    hide Enabled, Next, MarkersAreRecent, Overrun;
    var states: seq<System>, events: seq<Event> :| Continues(Next(s, e), states, events) && Overrun(states[|events|]);
    var longer, more := [s] + states, [e] + events;
    forall i | 0 <= i < |more| ensures Enabled(longer[i], more[i]) && longer[i + 1] == Next(longer[i], more[i]) {
      if i > 0 {
        assert Enabled(states[i - 1], events[i - 1]) && states[i - 1 + 1] == Next(states[i - 1], events[i - 1]);
      }
    }
    forall i | 0 <= i < |more| && more[i].Cleanup? ensures MarkersAreRecent(longer[i]) {
      if i > 0 { assert events[i - 1].Cleanup? && MarkersAreRecent(states[i - 1]); }
    }
    assert Continues(s, longer, more) && longer[|more|] == states[|events|];
  }

  /** A crawl without a job goes on, no marker is left and the admission lock is free. */
  ghost predicate Exposed(s: System, c: nat) {
    && LocksHeld(s) && s.admission.None? && c in s.crawls && s.crawls[c].Crawling? && s.crawls[c].plan.job.None?
    && forall key :: key in s.runs ==> !s.runs[key].status.Running?
  }

  function RunningJobs(s: System): set<nat> { set j | j in s.jobs && s.jobs[j].JobRunning? }

  /** The jobs that still run end, and the next migration passes its preflight. */
  lemma {:induction false} ExposedIsOverrun(s: System, c: nat)
    requires Exposed(s, c)
    ensures MayOverrun(s)
    decreases |RunningJobs(s)|
  {
    hide MayOverrun;
    if RunningJobs(s) == {} {
      assert forall j :: j in s.jobs && s.jobs[j].JobRunning? ==> j in RunningJobs(s);
      assert s.migrations == map[];
      var t := Next(s, LockSchema(0));
      var u := Next(t, Check(0));
      assert u.migrations[0].Executing? && UnderMarker(u.crawls[c]);
      OverrunNow(u);
      OverrunLater(t, Check(0));
      OverrunLater(s, LockSchema(0));
    } else {
      var j :| j in RunningJobs(s);
      assert !LiveFor(s, j);
      var t := Next(s, EndJob(j));
      assert RunningJobs(t) == RunningJobs(s) - {j};
      ExposedIsOverrun(t, c);
      OverrunLater(s, EndJob(j));
    }
  }

  /** After the cleanup the markers of this month follow in the next. */
  lemma ClearedIsExposed(s: System, c: nat)
    requires LocksHeld(s) && s.admission.None? && c in s.crawls && s.crawls[c].Crawling? && s.crawls[c].plan.job.None?
    requires s.crawls[c].plan.key in s.runs ==> !s.runs[s.crawls[c].plan.key].status.Running?
    ensures MayOverrun(s)
  {
    hide MayOverrun;
    var t := Next(s, NewMonth);
    var u := Next(t, Cleanup);
    assert MarkersAreRecent(t) by { assert forall d :: d in s.crawls ==> d == c; }
    ExposedIsOverrun(u, c);
    OverrunLater(t, Cleanup);
    OverrunLater(s, NewMonth);
  }

  /** A cleanup is harmless exactly when no crawl without a job works under a running marker from
      before this month; crawls of a running job are safe whatever a cleanup clears. */
  lemma CleanupIsHarmlessIff(s: System)
    requires Inv(s) && s.admission.None?
    ensures !MayOverrun(Next(s, Cleanup)) <==> MarkersAreRecent(s)
  {
    hide JobsLive, MayMigrate, Repairable;
    var t := Next(s, Cleanup);
    if MarkersAreRecent(s) {
      CleanupKeepsInv(s);
      forall states: seq<System>, events: seq<Event> | Continues(t, states, events) ensures !Overrun(states[|events|]) {
        InvAlways(states, events, |events|);
      }
    } else {
      var c :| c in s.crawls && UnderMarker(s.crawls[c]) && s.crawls[c].plan.job.None?
        && Stale(s, s.crawls[c].plan.key);
      assert s.crawls[c].Crawling?;
      ClearedIsExposed(t, c);
    }
  }

  lemma CleanupKeepsInv(s: System)
    requires Inv(s) && s.admission.None? && MarkersAreRecent(s)
    ensures Inv(Next(s, Cleanup))
  {
    hide LocksHeld, JobsLive, DirectMarkersStand, Overrun, MarkersAreRecent;
    LocksStep(s, Cleanup);
    JobsStep(s, Cleanup);
    MarkersStep(s, Cleanup);
    OverrunStep(s, Cleanup);
  }

  /** A direct crawl that goes on into the next month. */
  function Overnight(c: nat, key: string): seq<Event> {
    [Lease(c, Plan(key, None, false)), Admit(c), CommitMarker(c), LeaveAdmission(c), NewMonth]
  }

  lemma OvernightRuns(s: System, c: nat, key: string) returns (states: seq<System>)
    requires Start(s) && key !in s.runs
    ensures IsRun(states, Overnight(c, key)) && |states| == 6 && states[0] == s && states[5].admission.None?
    ensures c in states[5].crawls && states[5].crawls[c] == Crawling(Plan(key, None, false)) && Stale(states[5], key)
  {
    var events := Overnight(c, key);
    var s1 := Next(s, events[0]);
    var s2 := Next(s1, events[1]);
    var s3 := Next(s2, events[2]);
    var s4 := Next(s3, events[3]);
    states := [s, s1, s2, s3, s4, Next(s4, events[4])];
  }

  /** Any start leads there: one direct crawl that is still running when the month changes. */
  lemma OvernightCrawlIsExposed(s: System, c: nat, key: string) returns (states: seq<System>)
    requires Start(s) && key !in s.runs
    ensures IsRun(states, Overnight(c, key)) && states[0] == s
    ensures var reached := states[|states| - 1];
      Inv(reached) && reached.admission.None? && !MarkersAreRecent(reached) && MayOverrun(Next(reached, Cleanup))
  {
    hide MayOverrun, Next, Inv, Stale;
    states := OvernightRuns(s, c, key);
    InvStart(s);
    InvAlways(states, Overnight(c, key), 5);
    assert UnderMarker(states[5].crawls[c]);
    CleanupIsHarmlessIff(states[5]);
  }

  /** The shortest such continuation: a direct crawl whose run began in an earlier month loses its marker to a
      supervisor's cleanup, and a migration then executes under it. */
  lemma CleanupMayClearALiveMarker(s: System, c: nat, m: nat)
    requires Inv(s) && c in s.crawls && s.crawls[c].Crawling? && m !in s.migrations && s.admission.None?
    requires s.crawls[c].plan.key in s.runs ==> s.runs[s.crawls[c].plan.key].older
    requires forall key :: key in s.runs && s.runs[key].status.Running? ==> s.runs[key].older
    requires forall j :: j in s.jobs ==> !s.jobs[j].JobRunning?
    ensures Enabled(s, Cleanup)
    ensures var t := Next(s, Cleanup);
      && Enabled(t, LockSchema(m)) && Enabled(Next(t, LockSchema(m)), Check(m))
      && var u := Next(Next(t, LockSchema(m)), Check(m));
         u.migrations[m].Executing? && c in u.crawls && u.crawls[c].Crawling?
  {
    var t := Next(s, Cleanup);
    assert forall key :: key in t.runs ==> !t.runs[key].status.Running?;
  }
}
