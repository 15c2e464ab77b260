/**
What the admission protocol lets happen: when a preflight passes and what it repairs, a scheduled crawl
and a migration one after the other, and a migration after a crawl that died.
*/
module AdmissionRuns {
  import opened Wrappers
  import opened Admission

  // ---------------------------------------------------------------- preflight and repair

  /** A running marker may be repaired when its scheduled job has failed and has no other run. */
  ghost predicate LeftByFailedJob(s: System, key: string) {
    exists j ::
      && key in s.runs && s.runs[key].job == Some(j)
      && j in s.jobs && s.jobs[j] == JobFailed && OnlyRunOf(s, j, key)
  }

  ghost predicate OnlyRunOf(s: System, j: nat, key: string) {
    forall other :: other in s.runs && s.runs[other].job == Some(j) ==> other == key
  }

  /** A migration passes its preflight exactly when no scheduled job runs and every running marker was left
      by a failed one; it then closes these markers and changes no other row. */
  lemma PreflightIff(s: System, m: nat)
    ensures Enabled(s, Check(m)) <==>
      && m in s.migrations && s.migrations[m] == Checking
      && (forall j :: j in s.jobs ==> s.jobs[j] != JobRunning)
      && (forall key :: key in s.runs && s.runs[key].status == Running ==> LeftByFailedJob(s, key))
    ensures Enabled(s, Check(m)) ==>
      var t := Next(s, Check(m));
      && t.migrations == s.migrations[m := Executing] && t.runs.Keys == s.runs.Keys
      && (forall key :: key in s.runs ==>
            t.runs[key] == if s.runs[key].status == Running then s.runs[key].(status := Closed) else s.runs[key])
      && t.jobs == s.jobs && t.crawls == s.crawls && t.admission == s.admission && t.runtime == s.runtime
  {
    forall key | key in s.runs ensures Repairable(s, key) <==> LeftByFailedJob(s, key) { RepairableIff(s, key); }
  }

  lemma RepairableIff(s: System, key: string)
    requires key in s.runs
    ensures Repairable(s, key) <==> LeftByFailedJob(s, key)
  {
    if Repairable(s, key) { assert OnlyRunOf(s, s.runs[key].job.value, key); }
  }

  /** The supervisor closes the running markers of earlier months, and nothing else. */
  lemma CleanupIs(s: System)
    requires Enabled(s, Cleanup)
    ensures var t := Next(s, Cleanup);
      && t == s.(runs := t.runs) && t.runs.Keys == s.runs.Keys
      && forall key :: key in s.runs ==>
           t.runs[key] == if s.runs[key].status == Running && s.runs[key].older then s.runs[key].(status := Closed)
                          else s.runs[key]
  {
  }

  /** A marker is refused when the run is running for another job, or is published and to be used anew;
      otherwise a success that is not used anew stays, and everything else becomes a running marker. */
  lemma MarkerIff(runs: map<string, RunRow>, p: Plan)
    ensures StartRow(runs, p) == None <==>
      && p.key in runs
      && (|| (runs[p.key].status == Running && runs[p.key].job != p.job)
          || (runs[p.key].status == BoundedSuccess && p.anew))
    ensures StartRow(runs, p).Some? ==>
      var row := StartRow(runs, p).value;
      if p.key in runs && !p.anew && runs[p.key].status in {FullSuccess, BoundedSuccess} then row == runs[p.key]
      else row.status == Running && row.job == p.job && (row.older ==> p.key in runs && !p.anew && runs[p.key].older)
  {
  }

  /** Whoever leaves or dies, his locks are free, the others keep theirs, and no row changes; a crawl that
      finds its run complete lets go of the admission lock at once. */
  lemma LocksComeBack(s: System, e: Event)
    requires LocksHeld(s) && Enabled(s, e)
    ensures var t := Next(s, e);
      && (e.LeaveSchema? || e.CrashMigrator? ==>
            t == s.(migrations := t.migrations, admission := None) && t.migrations == s.migrations - {e.m})
      && (e.LeaveRuntime? || e.CrashCrawler? ==>
            && t == s.(crawls := t.crawls, runtime := None, admission := t.admission) && t.crawls == s.crawls - {e.c}
            && t.admission == if s.admission == Some(Crawler(e.c)) then None else s.admission)
      && (e.LeaveAdmission? ==> t == s.(crawls := t.crawls, admission := None))
      && (e.CommitMarker? ==>
            var p := s.crawls[e.c].plan;
            var complete := p.key in s.runs && !p.anew && s.runs[p.key].status in {FullSuccess, BoundedSuccess};
            && t.crawls == s.crawls[e.c := if complete then Finished(p) else Marked(p)]
            && t.admission == if complete then None else Some(Crawler(e.c)))
  {
    hide MayMigrate, Repairable, LiveFor, Repaired, Cleaned;
  }

  // ---------------------------------------------------------------- a crawl, then a migration

  /** One event after the other, as long as each is enabled. */
  ghost predicate Runs(s: System, events: seq<Event>, t: System)
    decreases events
  {
    if events == [] then s == t
    else Enabled(s, events[0]) && Runs(Next(s, events[0]), events[1..], t)
  }

  lemma RunsOne(s: System, e: Event, rest: seq<Event>, t: System)
    requires Enabled(s, e) && Runs(Next(s, e), rest, t)
    ensures Runs(s, [e] + rest, t)
  {
    assert ([e] + rest)[1..] == rest;
  }

  lemma {:induction false} RunsJoin(s: System, xs: seq<Event>, t: System, ys: seq<Event>, u: System)
    requires Runs(s, xs, t) && Runs(t, ys, u)
    ensures Runs(s, xs + ys, u)
    decreases xs
  {
    hide Enabled, Next;
    if xs == [] {
      assert xs + ys == ys;
    } else {
      RunsJoin(Next(s, xs[0]), xs[1..], t, ys, u);
      assert (xs + ys)[1..] == xs[1..] + ys;
    }
  }

  lemma RunsTwo(s: System, a: Event, b: Event)
    requires Enabled(s, a) && Enabled(Next(s, a), b)
    ensures Runs(s, [a, b], Next(Next(s, a), b))
  {
    hide Enabled, Next;
    RunsOne(Next(s, a), b, [], Next(Next(s, a), b));
    RunsOne(s, a, [b], Next(Next(s, a), b));
    assert [a] + [b] == [a, b];
  }

  /** Nothing is going on: no lock is held, no job, crawl or migration is under way, no marker is running. */
  ghost predicate Quiet(s: System) {
    && s.admission == None && s.runtime == None && s.crawls == map[] && s.migrations == map[]
    && (forall j :: j in s.jobs ==> s.jobs[j] != JobRunning)
    && (forall key :: key in s.runs ==> s.runs[key].status != Running)
  }

  /** A new scheduled crawl: neither its job nor its run is known yet. */
  ghost predicate IsNew(s: System, j: nat, p: Plan) { j !in s.jobs && p.job == Some(j) && p.key !in s.runs }

  /** Its job runs, and it holds the runtime lock. */
  function LeasedBy(s: System, j: nat, c: nat, p: Plan): System {
    s.(jobs := s.jobs[j := JobRunning], crawls := map[c := Leased(p)], runtime := Some(c))
  }

  /** It has committed its running marker. */
  function MarkedBy(s: System, j: nat, c: nat, p: Plan): System {
    s.(jobs := s.jobs[j := JobRunning], runs := s.runs[p.key := RunRow(Running, p.job, false)],
       crawls := map[c := Marked(p)], admission := Some(Crawler(c)), runtime := Some(c))
  }

  lemma CrawlIsLeased(s: System, j: nat, c: nat, p: Plan)
    requires Quiet(s) && IsNew(s, j, p)
    ensures Runs(s, [StartJob(j), Lease(c, p)], LeasedBy(s, j, c, p))
  {
    RunsTwo(s, StartJob(j), Lease(c, p));
  }

  lemma CrawlIsMarked(s: System, j: nat, c: nat, p: Plan)
    requires Quiet(s) && IsNew(s, j, p)
    ensures Runs(LeasedBy(s, j, c, p), [Admit(c), CommitMarker(c)], MarkedBy(s, j, c, p))
  {
    var t := LeasedBy(s, j, c, p);
    assert Next(t, Admit(c)).crawls == map[c := Admitted(p)];
    assert Next(Next(t, Admit(c)), CommitMarker(c)).crawls == map[c := Marked(p)];
    RunsTwo(t, Admit(c), CommitMarker(c));
  }

  /** A new scheduled crawl gets as far as its marker, and then no migration passes, whoever tries. */
  lemma ScheduledCrawlIsMarked(s: System, j: nat, c: nat, p: Plan)
    requires Quiet(s) && IsNew(s, j, p)
    ensures Runs(s, [StartJob(j), Lease(c, p)] + [Admit(c), CommitMarker(c)], MarkedBy(s, j, c, p))
    ensures forall m :: !Enabled(MarkedBy(s, j, c, p), LockSchema(m)) && !Enabled(MarkedBy(s, j, c, p), Check(m))
  {
    CrawlIsLeased(s, j, c, p);
    CrawlIsMarked(s, j, c, p);
    hide Runs;
    RunsJoin(s, [StartJob(j), Lease(c, p)], LeasedBy(s, j, c, p), [Admit(c), CommitMarker(c)], MarkedBy(s, j, c, p));
  }

  // ---------------------------------------------------------------- a migration after it

  /** The crawl has recorded its success but still holds the runtime lock. */
  function FinishedBy(s: System, j: nat, c: nat, p: Plan): System {
    s.(jobs := s.jobs[j := JobRunning], runs := s.runs[p.key := RunRow(FullSuccess, p.job, false)],
       crawls := map[c := Finished(p)], runtime := Some(c))
  }

  /** The crawl and its job are over. */
  function Over(s: System, j: nat, p: Plan): System {
    s.(jobs := s.jobs[j := JobDone], runs := s.runs[p.key := RunRow(FullSuccess, p.job, false)])
  }

  function Migrating(s: System, m: nat): System {
    s.(migrations := map[m := Executing], admission := Some(Migrator(m)))
  }

  lemma CrawlFinishes(s: System, j: nat, c: nat, p: Plan)
    requires Quiet(s) && IsNew(s, j, p)
    ensures Runs(MarkedBy(s, j, c, p), [LeaveAdmission(c), FinishRun(c, FullSuccess)], FinishedBy(s, j, c, p))
  {
    var t := MarkedBy(s, j, c, p);
    assert Next(t, LeaveAdmission(c)).crawls == map[c := Crawling(p)];
    assert Next(Next(t, LeaveAdmission(c)), FinishRun(c, FullSuccess)).crawls == map[c := Finished(p)];
    RunsTwo(t, LeaveAdmission(c), FinishRun(c, FullSuccess));
    assert Next(Next(t, LeaveAdmission(c)), FinishRun(c, FullSuccess)).runs == FinishedBy(s, j, c, p).runs;
  }

  lemma CrawlLeaves(s: System, j: nat, c: nat, p: Plan)
    requires Quiet(s) && IsNew(s, j, p)
    ensures Runs(FinishedBy(s, j, c, p), [LeaveRuntime(c), EndJob(j)], Over(s, j, p))
  {
    var t := FinishedBy(s, j, c, p);
    assert Next(t, LeaveRuntime(c)).crawls == map[];
    RunsTwo(t, LeaveRuntime(c), EndJob(j));
    assert s.jobs[j := JobRunning][j := JobDone] == s.jobs[j := JobDone];
  }

  /** On a quiet system a migration executes at once. */
  lemma MigrationExecutes(s: System, m: nat)
    requires Quiet(s)
    ensures Runs(s, [LockSchema(m), Check(m)], Migrating(s, m))
  {
    var t := Next(s, LockSchema(m));
    assert t.migrations == map[m := Checking];
    PreflightIff(t, m);
    assert Next(t, Check(m)).runs == s.runs;
    RunsTwo(s, LockSchema(m), Check(m));
  }

  /** When it has executed, everything is quiet again. */
  lemma MigrationLeaves(s: System, m: nat)
    requires Quiet(s)
    ensures Runs(Migrating(s, m), [LeaveSchema(m)], s)
  {
    var t := Migrating(s, m);
    assert Next(t, LeaveSchema(m)).migrations == map[];
    RunsOne(t, LeaveSchema(m), [], s);
    assert [LeaveSchema(m)] + [] == [LeaveSchema(m)];
  }

  /** Marked, the crawl finishes and gives its locks back, its job ends, and the next migration executes. */
  lemma MigrationFollowsCrawl(s: System, j: nat, c: nat, p: Plan, m: nat)
    requires Quiet(s) && IsNew(s, j, p)
    ensures Runs(MarkedBy(s, j, c, p),
                 [LeaveAdmission(c), FinishRun(c, FullSuccess)] + ([LeaveRuntime(c), EndJob(j)]
                   + [LockSchema(m), Check(m)]),
                 Migrating(Over(s, j, p), m))
  {
    CrawlFinishes(s, j, c, p);
    CrawlLeaves(s, j, c, p);
    MigrationExecutes(Over(s, j, p), m);
    hide Runs;
    var last := Migrating(Over(s, j, p), m);
    RunsJoin(FinishedBy(s, j, c, p), [LeaveRuntime(c), EndJob(j)], Over(s, j, p), [LockSchema(m), Check(m)], last);
    RunsJoin(MarkedBy(s, j, c, p), [LeaveAdmission(c), FinishRun(c, FullSuccess)], FinishedBy(s, j, c, p),
             [LeaveRuntime(c), EndJob(j)] + [LockSchema(m), Check(m)], last);
  }

  // ---------------------------------------------------------------- after a crash

  /** The crawler has died under its marker, and its job is closed. */
  function Dead(s: System, j: nat, p: Plan, end: JobStatus): System {
    s.(jobs := s.jobs[j := end], runs := s.runs[p.key := RunRow(Running, p.job, false)])
  }

  lemma CrawlDies(s: System, j: nat, c: nat, p: Plan, failed: bool)
    requires Quiet(s) && IsNew(s, j, p)
    ensures Runs(MarkedBy(s, j, c, p), [CrashCrawler(c), if failed then FailJob(j) else EndJob(j)],
                 Dead(s, j, p, if failed then JobFailed else JobDone))
  {
    var t := MarkedBy(s, j, c, p);
    assert Next(t, CrashCrawler(c)).crawls == map[];
    RunsTwo(t, CrashCrawler(c), if failed then FailJob(j) else EndJob(j));
  }

  /** A marker left by a failed job is repaired by the next migration; one that a finished job left behind
      keeps every migration out. */
  lemma DeadCrawlIsRepairedIffFailed(s: System, j: nat, p: Plan, m: nat, failed: bool)
    requires Quiet(s) && IsNew(s, j, p) && forall key :: key in s.runs ==> s.runs[key].job != Some(j)
    ensures var u := Next(Dead(s, j, p, if failed then JobFailed else JobDone), LockSchema(m));
      && (Enabled(u, Check(m)) <==> failed)
      && (failed ==> Next(u, Check(m)).runs == s.runs[p.key := RunRow(Closed, Some(j), false)])
  {
    var u := Next(Dead(s, j, p, if failed then JobFailed else JobDone), LockSchema(m));
    PreflightIff(u, m);
    assert u.migrations == map[m := Checking] && p.key in u.runs && u.runs[p.key].status == Running;
    hide Enabled, Next;
    assert OnlyRunOf(u, j, p.key);
    assert failed ==> LeftByFailedJob(u, p.key);
    assert failed ==> Next(u, Check(m)).runs == s.runs[p.key := RunRow(Closed, Some(j), false)];
  }
}
