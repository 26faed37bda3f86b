/**
 * `StudentService`: the job-administration façade over the Quartz scheduler
 * (disable, enable, cancel, status, listing, scheduling the marks job) and the
 * student deletion that invalidates the "student-details" cache. Every
 * `SchedulerException` is caught and folded into `false` or a 500 response.
 */
module Service {
  import opened Wrappers
  import opened Seqs
  import opened JavaLang
  import opened Entities
  import opened Http
  import opened Quartz
  import opened Repository

  const MARKS_JOB_PREFIX: string := "calculate-marks-"
  const MARKS_TRIGGER_PREFIX: string := "trigger-marks-"
  const STUDENT_JOBS: string := "student-jobs"
  const STUDENT_TRIGGERS: string := "student-triggers"
  /** At second 0 of every fifth minute. */
  const MARKS_CRON: string := "0 */5 * * * ?"
  const STUDENT_NAME_KEY: string := "studentName"
  const MARKS_JOB_CLASS: string := "StudentMarksJob"

  // ---------------------------------------------------------------------------
  // Identities of the marks-calculation job

  /** The job key `scheduleStudentMarksCalculation` gives the job for `studentName`. */
  function MarksJobKey(studentName: string): JobKey {
    JobKey(MARKS_JOB_PREFIX + studentName, STUDENT_JOBS)
  }

  /** The job detail: a `StudentMarksJob` whose data map names the student. */
  function MarksJobDetail(studentName: string): (d: JobDetail)
    ensures d.key == MarksJobKey(studentName) && d.jobClass == MARKS_JOB_CLASS
    ensures d.data.Keys == {STUDENT_NAME_KEY} && d.data[STUDENT_NAME_KEY] == studentName
  {
    JobDetail(MarksJobKey(studentName), MARKS_JOB_CLASS, map[STUDENT_NAME_KEY := studentName])
  }

  /** The trigger: a fixed cron schedule, whatever delay the caller asked for. */
  function MarksTrigger(studentName: string): (t: TriggerSpec)
    ensures t.key == TriggerKey(MARKS_TRIGGER_PREFIX + studentName, STUDENT_TRIGGERS)
    ensures t.cronExpression == MARKS_CRON
  {
    TriggerSpec(TriggerKey(MARKS_TRIGGER_PREFIX + studentName, STUDENT_TRIGGERS), MARKS_CRON)
  }

  /** Different students get different job keys and different trigger keys, so their schedules never collide. */
  lemma MarksIdentitiesDistinct(a: string, b: string)
    requires a != b
    ensures MarksJobKey(a) != MarksJobKey(b)
    ensures MarksTrigger(a).key != MarksTrigger(b).key
    ensures MarksJobKey(a).group == MarksJobKey(b).group == STUDENT_JOBS
  {
    var p, q := MARKS_JOB_PREFIX, MARKS_TRIGGER_PREFIX;
    assert (p + a)[|p|..] == a && (p + b)[|p|..] == b;
    assert (q + a)[|q|..] == a && (q + b)[|q|..] == b;
  }

  // ---------------------------------------------------------------------------
  // The job-status body

  /** The key of the trigger a job-status entry reports on. */
  function EntryKey(e: TriggerStatus): TriggerKey {
    TriggerKey(e.triggerName, e.triggerGroup)
  }

  /** The status entry for one trigger, given the state the scheduler reports for it. */
  function Entry(t: Trigger, state: TriggerState): TriggerStatus {
    TriggerStatus(t.key.name, t.key.group, state.Name(), t.nextFireTime, t.previousFireTime)
  }

  /** `es` holds exactly one entry per trigger of `job`, each reporting that trigger's state and fire times. */
  ghost predicate ReportsTriggersOf(es: seq<TriggerStatus>, triggers: Triggers, job: JobKey) {
    && Enumerates(Map(EntryKey, es), TriggersOf(triggers, job))
    && forall e :: e in es ==> EntryKey(e) in triggers && e == Entry(triggers[EntryKey(e)].trigger, triggers[EntryKey(e)].state)
  }

  /** `Map.of` rejects a null value: a trigger that has not fired yet, or will not fire again, cannot be reported. */
  predicate NullFireTime(t: Trigger) {
    t.nextFireTime.None? || t.previousFireTime.None?
  }

  /** Some trigger of `job` has a null fire time. */
  ghost predicate HasNullFireTime(triggers: Triggers, job: JobKey) {
    exists t :: t in TriggersOf(triggers, job) && NullFireTime(triggers[t].trigger)
  }

  // ---------------------------------------------------------------------------
  // The scheduled-jobs listing

  /** A trigger of a listed job, with the state the scheduler reported for it. */
  datatype TriggerRow = TriggerRow(trigger: Trigger, state: TriggerState)

  /** A listed job: its key, its class and its triggers, as fetched. */
  datatype JobPlan = JobPlan(key: JobKey, jobClass: string, triggers: seq<TriggerRow>)

  /** A listed group and its jobs, in the order they were visited. */
  datatype GroupPlan = GroupPlan(group: string, jobs: seq<JobPlan>)

  function RowKey(row: TriggerRow): TriggerKey {
    row.trigger.key
  }

  function JobPlanKey(j: JobPlan): JobKey {
    j.key
  }

  function GroupName(g: GroupPlan): string {
    g.group
  }

  /** A listed job agrees with the store: its class, and each of its triggers once, with its state. */
  ghost predicate JobPlanFits(j: JobPlan, jobs: Jobs, triggers: Triggers) {
    && j.key in jobs
    && j.jobClass == jobs[j.key].jobClass
    && Enumerates(Map(RowKey, j.triggers), TriggersOf(triggers, j.key))
    && forall row :: row in j.triggers ==>
         row.trigger.key in triggers && row.trigger == triggers[row.trigger.key].trigger
         && row.state == triggers[row.trigger.key].state
  }

  /** A listed group agrees with the store: each of its jobs once. */
  ghost predicate GroupPlanFits(g: GroupPlan, jobs: Jobs, triggers: Triggers) {
    && Enumerates(Map(JobPlanKey, g.jobs), JobsInGroup(jobs, g.group))
    && forall j :: j in g.jobs ==> JobPlanFits(j, jobs, triggers)
  }

  /** The whole visit agrees with the store: each group once, in some order. */
  ghost predicate PlanFits(plan: seq<GroupPlan>, jobs: Jobs, triggers: Triggers) {
    && Enumerates(Map(GroupName, plan), JobGroups(jobs))
    && forall g :: g in plan ==> GroupPlanFits(g, jobs, triggers)
  }

  function TriggerLines(rows: seq<TriggerRow>): (r: seq<InfoLine>)
    ensures |r| == |rows| && forall i :: 0 <= i < |rows| ==> r[i].TriggerLine?
  {
    seq(|rows|, i requires 0 <= i < |rows| =>
      TriggerLine(rows[i].trigger.key.name, rows[i].trigger.nextFireTime, rows[i].state))
  }

  /** A job line with its trigger count, then one line per trigger. */
  function JobBlock(j: JobPlan): seq<InfoLine> {
    [JobLine(j.key.group, j.key.name, j.jobClass, |j.triggers|)] + TriggerLines(j.triggers)
  }

  function JobBlocks(js: seq<JobPlan>): seq<InfoLine> {
    if js == [] then [] else JobBlocks(js[..|js| - 1]) + JobBlock(js[|js| - 1])
  }

  /** A group line, then the blocks of the group's jobs. */
  function GroupBlock(g: GroupPlan): seq<InfoLine> {
    [GroupLine(g.group)] + JobBlocks(g.jobs)
  }

  function GroupBlocks(gs: seq<GroupPlan>): seq<InfoLine> {
    if gs == [] then [] else GroupBlocks(gs[..|gs| - 1]) + GroupBlock(gs[|gs| - 1])
  }

  /** The lines `listAllScheduledJobs` returns for a visit. */
  function Listing(plan: seq<GroupPlan>): seq<InfoLine> {
    var lines := GroupBlocks(plan);
    if lines == [] then [NoJobsLine] else lines
  }

  /** Every job line's trigger count is the number of trigger lines right after it. */
  ghost predicate CountsMatch(lines: seq<InfoLine>) {
    forall i :: 0 <= i < |lines| && lines[i].JobLine? ==>
      var n := lines[i].triggerCount;
      && i + n < |lines|
      && (forall j :: i < j <= i + n ==> lines[j].TriggerLine?)
      && (i + n + 1 == |lines| || !lines[i + n + 1].TriggerLine?)
  }

  /** Every trigger line belongs to the run after some job line. */
  ghost predicate TriggersFollowJobs(lines: seq<InfoLine>) {
    forall i :: 0 <= i < |lines| && lines[i].TriggerLine? ==> 0 < i && !lines[i - 1].GroupLine? && !lines[i - 1].NoJobsLine?
  }

  lemma {:induction false} CountsMatchAppend(a: seq<InfoLine>, b: seq<InfoLine>)
    requires CountsMatch(a) && CountsMatch(b)
    requires b == [] || !b[0].TriggerLine?
    ensures CountsMatch(a + b)
  {
    var ab := a + b;
    forall i | 0 <= i < |ab| && ab[i].JobLine?
      ensures i + ab[i].triggerCount < |ab|
      ensures forall j :: i < j <= i + ab[i].triggerCount ==> ab[j].TriggerLine?
      ensures i + ab[i].triggerCount + 1 == |ab| || !ab[i + ab[i].triggerCount + 1].TriggerLine?
    {
      if i < |a| {
        assert a[i] == ab[i];
        var n := a[i].triggerCount;
        assert forall j :: i < j <= i + n ==> ab[j] == a[j];
        if i + n + 1 < |a| {
          assert ab[i + n + 1] == a[i + n + 1];
        } else if i + n + 1 < |ab| {
          assert ab[i + n + 1] == b[0];
        }
      } else {
        var k := i - |a|;
        assert b[k] == ab[i];
        var n := b[k].triggerCount;
        assert forall j :: i < j <= i + n ==> ab[j] == b[j - |a|];
        if i + n + 1 < |ab| {
          assert ab[i + n + 1] == b[k + n + 1];
        }
      }
    }
  }

  lemma JobBlockCounts(j: JobPlan)
    ensures CountsMatch(JobBlock(j)) && TriggersFollowJobs(JobBlock(j))
    ensures JobBlock(j)[0].JobLine?
  {
  }

  lemma {:induction false} TriggersFollowAppend(a: seq<InfoLine>, b: seq<InfoLine>)
    requires TriggersFollowJobs(a) && TriggersFollowJobs(b)
    requires b == [] || !b[0].TriggerLine?
    ensures TriggersFollowJobs(a + b)
  {
    var ab := a + b;
    forall i | 0 <= i < |ab| && ab[i].TriggerLine?
      ensures 0 < i && !ab[i - 1].GroupLine? && !ab[i - 1].NoJobsLine?
    {
      if i < |a| {
        assert ab[i] == a[i] && ab[i - 1] == a[i - 1];
      } else {
        assert ab[i] == b[i - |a|];
        assert i - |a| > 0;
        assert ab[i - 1] == b[i - 1 - |a|];
      }
    }
  }

  lemma {:induction false} JobBlocksWellFormed(js: seq<JobPlan>)
    ensures CountsMatch(JobBlocks(js)) && TriggersFollowJobs(JobBlocks(js))
    ensures JobBlocks(js) == [] || JobBlocks(js)[0].JobLine?
    decreases |js|
  {
    if js != [] {
      var init := js[..|js| - 1];
      JobBlocksWellFormed(init);
      JobBlockCounts(js[|js| - 1]);
      CountsMatchAppend(JobBlocks(init), JobBlock(js[|js| - 1]));
      TriggersFollowAppend(JobBlocks(init), JobBlock(js[|js| - 1]));
    }
  }

  lemma {:induction false} GroupBlocksWellFormed(gs: seq<GroupPlan>)
    ensures CountsMatch(GroupBlocks(gs)) && TriggersFollowJobs(GroupBlocks(gs))
    ensures GroupBlocks(gs) == [] || GroupBlocks(gs)[0].GroupLine?
    decreases |gs|
  {
    if gs != [] {
      var init := gs[..|gs| - 1];
      var g := gs[|gs| - 1];
      GroupBlocksWellFormed(init);
      JobBlocksWellFormed(g.jobs);
      var head: seq<InfoLine> := [GroupLine(g.group)];
      CountsMatchAppend(head, JobBlocks(g.jobs));
      TriggersFollowAppend(head, JobBlocks(g.jobs));
      CountsMatchAppend(GroupBlocks(init), GroupBlock(g));
      TriggersFollowAppend(GroupBlocks(init), GroupBlock(g));
    }
  }

  /**
   * The listing's shape: each job line's `Triggers: n` is followed by exactly n
   * trigger lines, and every trigger line sits in such a run.
   */
  lemma ListingWellFormed(plan: seq<GroupPlan>)
    ensures CountsMatch(Listing(plan)) && TriggersFollowJobs(Listing(plan))
  {
    GroupBlocksWellFormed(plan);
  }

  /** The group lines of a list of lines, in order. */
  function GroupLinesOf(lines: seq<InfoLine>): (r: seq<string>)
    ensures |r| <= |lines|
  {
    if lines == [] then []
    else GroupLinesOf(lines[..|lines| - 1]) + (if lines[|lines| - 1].GroupLine? then [lines[|lines| - 1].group] else [])
  }

  lemma {:induction false} GroupLinesOfAppend(a: seq<InfoLine>, b: seq<InfoLine>)
    ensures GroupLinesOf(a + b) == GroupLinesOf(a) + GroupLinesOf(b)
    decreases |b|
  {
    if b == [] {
      assert a + b == a;
    } else {
      var b' := b[..|b| - 1];
      assert (a + b)[..|a + b| - 1] == a + b';
      assert (a + b)[|a + b| - 1] == b[|b| - 1];
      GroupLinesOfAppend(a, b');
    }
  }

  /** Lines none of which is a group line contribute no group names. */
  lemma {:induction false} NoGroupLines(lines: seq<InfoLine>)
    requires forall i :: 0 <= i < |lines| ==> !lines[i].GroupLine?
    ensures GroupLinesOf(lines) == []
    decreases |lines|
  {
    if lines != [] {
      NoGroupLines(lines[..|lines| - 1]);
    }
  }

  lemma {:induction false} JobBlocksHaveNoGroupLine(js: seq<JobPlan>)
    ensures GroupLinesOf(JobBlocks(js)) == []
    decreases |js|
  {
    if js != [] {
      var j := js[|js| - 1];
      JobBlocksHaveNoGroupLine(js[..|js| - 1]);
      var block := JobBlock(j);
      NoGroupLines(block);
      GroupLinesOfAppend(JobBlocks(js[..|js| - 1]), block);
    }
  }

  lemma {:induction false} GroupBlocksGroupLines(gs: seq<GroupPlan>)
    ensures GroupLinesOf(GroupBlocks(gs)) == Map(GroupName, gs)
    decreases |gs|
  {
    if gs != [] {
      var init := gs[..|gs| - 1];
      var g := gs[|gs| - 1];
      GroupBlocksGroupLines(init);
      JobBlocksHaveNoGroupLine(g.jobs);
      GroupLinesOfAppend([GroupLine(g.group)], JobBlocks(g.jobs));
      assert GroupLinesOf([GroupLine(g.group)]) == [g.group] by {
        assert [GroupLine(g.group)][..0] == [];
      }
      GroupLinesOfAppend(GroupBlocks(init), GroupBlock(g));
      assert Map(GroupName, gs) == Map(GroupName, init) + [g.group];
    }
  }

  /**
   * For a visit that agrees with the store: there is one "Job Group" line per group
   * holding jobs, in visiting order and without repetition, and the "No jobs
   * currently scheduled" line appears exactly when the store holds no job.
   */
  lemma ListingGroups(plan: seq<GroupPlan>, jobs: Jobs, triggers: Triggers)
    requires PlanFits(plan, jobs, triggers)
    ensures GroupLinesOf(Listing(plan)) == Map(GroupName, plan)
    ensures Enumerates(GroupLinesOf(Listing(plan)), JobGroups(jobs))
    ensures |GroupLinesOf(Listing(plan))| == |JobGroups(jobs)|
    ensures NoJobsLine in Listing(plan) <==> |jobs| == 0
    ensures NoJobsLine in Listing(plan) <==> JobGroups(jobs) == {}
  {
    GroupBlocksGroupLines(plan);
    GroupBlocksWellFormed(plan);
    EnumerationLength(Map(GroupName, plan), JobGroups(jobs));
    if |jobs| == 0 {
      assert JobGroups(jobs) == {};
      assert plan == [];
    } else {
      var k :| k in jobs;
      assert k.group in JobGroups(jobs);
      assert plan != [];
      assert GroupBlocks(plan) != [];
      NoJobsLineAbsent(plan);
    }
    assert [NoJobsLine][..0] == [];
  }

  lemma {:induction false} NoJobsLineAbsent(gs: seq<GroupPlan>)
    ensures NoJobsLine !in GroupBlocks(gs)
    decreases |gs|
  {
    if gs != [] {
      NoJobsLineAbsent(gs[..|gs| - 1]);
      JobBlocksNoJobsLine(gs[|gs| - 1].jobs);
    }
  }

  lemma {:induction false} JobBlocksNoJobsLine(js: seq<JobPlan>)
    ensures NoJobsLine !in JobBlocks(js)
    decreases |js|
  {
    if js != [] {
      JobBlocksNoJobsLine(js[..|js| - 1]);
    }
  }

  /** In a visit that agrees with the store, a listed job's trigger count is the number of triggers the store holds for it. */
  lemma ListedTriggerCount(plan: seq<GroupPlan>, jobs: Jobs, triggers: Triggers, g: GroupPlan, j: JobPlan)
    requires PlanFits(plan, jobs, triggers)
    requires g in plan && j in g.jobs
    ensures |j.triggers| == |TriggersOf(triggers, j.key)|
    ensures j.key in jobs && j.key.group == g.group
  {
    EnumerationLength(Map(RowKey, j.triggers), TriggersOf(triggers, j.key));
    assert j.key in Map(JobPlanKey, g.jobs);
  }

  // ---------------------------------------------------------------------------
  // The service

  class StudentService {
    const scheduler: Scheduler
    const repository: StudentRepository
    /** The "student-details" cache entry; `None` once invalidated. */
    var detailsCache: Option<seq<Student>>

    constructor (scheduler: Scheduler, repository: StudentRepository)
      ensures this.scheduler == scheduler && this.repository == repository && detailsCache == None
    {
      this.scheduler := scheduler;
      this.repository := repository;
      detailsCache := None;
    }

    /** `deleteStudentById`: the cache is invalidated exactly when a row was deleted; a database failure propagates. */
    method DeleteStudentById(id: int) returns (r: Result<bool, PersistenceException>)
      requires repository.Valid()
      modifies repository, this
      ensures repository.Valid() && repository.online == old(repository.online)
      ensures r == if old(repository.online) then Ok(HasId(old(repository.rows), id)) else Err(DatabaseUnavailable)
      ensures repository.rows == if old(repository.online) then WithoutId(old(repository.rows), id) else old(repository.rows)
      ensures detailsCache == if r == Ok(true) then None else old(detailsCache)
    {
      r := repository.DeleteById(id);
      if r == Ok(true) {
        detailsCache := None;
      }
    }

    /**
     * `scheduleStudentMarksCalculation`: stores the marks job and its cron trigger,
     * or nothing when the scheduler throws (the exception is swallowed).
     * `delayInSeconds` is only logged.
     */
    method ScheduleStudentMarksCalculation(studentName: string, delayInSeconds: Int32, firstFireTime: int)
      requires scheduler.Valid()
      modifies scheduler
      ensures scheduler.Valid() && scheduler.online == old(scheduler.online)
      ensures var stored := old(scheduler.online)
                && MarksJobKey(studentName) !in old(scheduler.jobs)
                && MarksTrigger(studentName).key !in old(scheduler.triggers);
        && scheduler.jobs == (if stored then old(scheduler.jobs)[MarksJobKey(studentName) := MarksJobDetail(studentName)] else old(scheduler.jobs))
        && scheduler.triggers == (if stored then old(scheduler.triggers)[MarksTrigger(studentName).key := Bound(MarksTrigger(studentName), MarksJobKey(studentName), firstFireTime)] else old(scheduler.triggers))
    {
      var jobDetail := MarksJobDetail(studentName);
      var trigger := MarksTrigger(studentName);
      var scheduled := scheduler.ScheduleJob(jobDetail, trigger, firstFireTime);
    }

    /** `cancelScheduledJob`: true exactly when the job existed and was deleted with its triggers. */
    method CancelScheduledJob(jobName: string, groupName: string) returns (cancelled: bool)
      requires scheduler.Valid()
      modifies scheduler
      ensures scheduler.Valid() && scheduler.online == old(scheduler.online)
      ensures cancelled <==> old(scheduler.online) && JobKey(jobName, groupName) in old(scheduler.jobs)
      ensures scheduler.online ==> scheduler.jobs == old(scheduler.jobs) - {JobKey(jobName, groupName)}
      ensures scheduler.online ==> scheduler.triggers == WithoutJob(old(scheduler.triggers), JobKey(jobName, groupName))
      ensures !scheduler.online ==> scheduler.jobs == old(scheduler.jobs) && scheduler.triggers == old(scheduler.triggers)
    {
      var jobKey := JobKey(jobName, groupName);
      var deleted := scheduler.DeleteJob(jobKey);
      match deleted
      case Err(_) => cancelled := false;
      case Ok(b) => cancelled := b;
    }

    /** `disableJob`: an existing job has all its triggers paused and stays stored; otherwise nothing changes. */
    method DisableJob(jobName: string, groupName: string) returns (disabled: bool)
      requires scheduler.Valid()
      modifies scheduler
      ensures scheduler.Valid() && scheduler.online == old(scheduler.online) && scheduler.jobs == old(scheduler.jobs)
      ensures disabled <==> old(scheduler.online) && JobKey(jobName, groupName) in old(scheduler.jobs)
      ensures scheduler.triggers == if disabled then PausedAll(old(scheduler.triggers), JobKey(jobName, groupName)) else old(scheduler.triggers)
    {
      var jobKey := JobKey(jobName, groupName);
      var found := scheduler.CheckExists(jobKey);
      if found.Err? || !found.value {
        return false;
      }
      var paused := scheduler.PauseJob(jobKey);
      disabled := paused.Pass?;
    }

    /** `enableJob`: an existing job has its paused triggers resumed; otherwise nothing changes. */
    method EnableJob(jobName: string, groupName: string) returns (enabled: bool)
      requires scheduler.Valid()
      modifies scheduler
      ensures scheduler.Valid() && scheduler.online == old(scheduler.online) && scheduler.jobs == old(scheduler.jobs)
      ensures enabled <==> old(scheduler.online) && JobKey(jobName, groupName) in old(scheduler.jobs)
      ensures scheduler.triggers == if enabled then ResumedAll(old(scheduler.triggers), JobKey(jobName, groupName)) else old(scheduler.triggers)
    {
      var jobKey := JobKey(jobName, groupName);
      var found := scheduler.CheckExists(jobKey);
      if found.Err? || !found.value {
        return false;
      }
      var resumed := scheduler.ResumeJob(jobKey);
      enabled := resumed.Pass?;
    }

    /**
     * `getJobStatus` as written: 500 when the scheduler throws, 404 for an unknown
     * job, otherwise one entry per trigger of the job. Building an entry with
     * `Map.of` throws a NullPointerException, which the `catch` of
     * `SchedulerException` does not handle, as soon as a trigger has a null fire time.
     */
    method GetJobStatus(jobName: string, groupName: string) returns (r: Result<Response, UncheckedException>)
      requires scheduler.Valid()
      ensures !scheduler.online ==>
        r == Ok(Response(INTERNAL_SERVER_ERROR, Text("Failed to get job status: " + JobStoreUnavailable.Message())))
      ensures scheduler.online && JobKey(jobName, groupName) !in scheduler.jobs ==>
        r == Ok(Response(NOT_FOUND, Text("Job not found: " + jobName + " in group: " + groupName)))
      ensures scheduler.online && JobKey(jobName, groupName) in scheduler.jobs ==>
        (r.Err? <==> HasNullFireTime(scheduler.triggers, JobKey(jobName, groupName)))
      ensures r.Err? ==> r.error == NullPointerException
      ensures scheduler.online && JobKey(jobName, groupName) in scheduler.jobs && r.Ok? ==>
        && r.value.status == OK && r.value.entity.JobStatus?
        && r.value.entity.jobName == jobName && r.value.entity.jobGroup == groupName
        && ReportsTriggersOf(r.value.entity.triggers, scheduler.triggers, JobKey(jobName, groupName))
    {
      var jobKey := JobKey(jobName, groupName);
      var found := scheduler.CheckExists(jobKey);
      if found.Err? {
        return Ok(Response(INTERNAL_SERVER_ERROR, Text("Failed to get job status: " + found.error.Message())));
      }
      if !found.value {
        return Ok(Response(NOT_FOUND, Text("Job not found: " + jobName + " in group: " + groupName)));
      }
      var fetched := scheduler.GetTriggersOfJob(jobKey);
      var triggers;
      match fetched {
        case Err(e) => return Ok(Response(INTERNAL_SERVER_ERROR, Text("Failed to get job status: " + e.Message())));
        case Ok(ts) => triggers := ts;
      }
      var triggerStates: seq<TriggerStatus> := [];
      for i := 0 to |triggers|
        invariant |triggerStates| == i
        invariant forall j :: 0 <= j < i ==> triggerStates[j] == Entry(triggers[j], StateOf(scheduler.triggers, triggers[j].key))
        invariant forall j :: 0 <= j < i ==> !NullFireTime(triggers[j])
      {
        var fetchedState := scheduler.GetTriggerState(triggers[i].key);
        var state;
        match fetchedState {
          case Err(e) => return Ok(Response(INTERNAL_SERVER_ERROR, Text("Failed to get job status: " + e.Message())));
          case Ok(st) => state := st;
        }
        if NullFireTime(triggers[i]) {
          assert triggers[i] in triggers;
          assert Map(TriggerKeyOf, triggers)[i] == triggers[i].key;
          return Err(NullPointerException);
        }
        triggerStates := triggerStates + [Entry(triggers[i], state)];
      }
      forall t | t in TriggersOf(scheduler.triggers, jobKey)
        ensures !NullFireTime(scheduler.triggers[t].trigger)
      {
        var j :| 0 <= j < |triggers| && Map(TriggerKeyOf, triggers)[j] == t;
        assert triggers[j] in triggers;
      }
      assert Map(EntryKey, triggerStates) == Map(TriggerKeyOf, triggers);
      forall e | e in triggerStates
        ensures EntryKey(e) in scheduler.triggers && e == Entry(scheduler.triggers[EntryKey(e)].trigger, scheduler.triggers[EntryKey(e)].state)
      {
        var j :| 0 <= j < |triggerStates| && triggerStates[j] == e;
        assert triggers[j] in triggers;
      }
      r := Ok(Response(OK, JobStatus(jobName, groupName, triggerStates)));
    }

    /**
     * `getJobStatus` as evidently intended: each entry reports the trigger's fire
     * times even when they are null, so every stored job gets its 200.
     */
    method GetJobStatusNullSafe(jobName: string, groupName: string) returns (r: Response)
      requires scheduler.Valid()
      ensures !scheduler.online ==>
        r == Response(INTERNAL_SERVER_ERROR, Text("Failed to get job status: " + JobStoreUnavailable.Message()))
      ensures scheduler.online && JobKey(jobName, groupName) !in scheduler.jobs ==>
        r == Response(NOT_FOUND, Text("Job not found: " + jobName + " in group: " + groupName))
      ensures scheduler.online && JobKey(jobName, groupName) in scheduler.jobs ==>
        && r.status == OK && r.entity.JobStatus?
        && r.entity.jobName == jobName && r.entity.jobGroup == groupName
        && ReportsTriggersOf(r.entity.triggers, scheduler.triggers, JobKey(jobName, groupName))
        && |r.entity.triggers| == |TriggersOf(scheduler.triggers, JobKey(jobName, groupName))|
    {
      var jobKey := JobKey(jobName, groupName);
      var found := scheduler.CheckExists(jobKey);
      if found.Err? {
        return Response(INTERNAL_SERVER_ERROR, Text("Failed to get job status: " + found.error.Message()));
      }
      if !found.value {
        return Response(NOT_FOUND, Text("Job not found: " + jobName + " in group: " + groupName));
      }
      var fetched := scheduler.GetTriggersOfJob(jobKey);
      var triggers;
      match fetched {
        case Err(e) => return Response(INTERNAL_SERVER_ERROR, Text("Failed to get job status: " + e.Message()));
        case Ok(ts) => triggers := ts;
      }
      var triggerStates: seq<TriggerStatus> := [];
      for i := 0 to |triggers|
        invariant |triggerStates| == i
        invariant forall j :: 0 <= j < i ==> triggerStates[j] == Entry(triggers[j], StateOf(scheduler.triggers, triggers[j].key))
      {
        var fetchedState := scheduler.GetTriggerState(triggers[i].key);
        var state;
        match fetchedState {
          case Err(e) => return Response(INTERNAL_SERVER_ERROR, Text("Failed to get job status: " + e.Message()));
          case Ok(st) => state := st;
        }
        triggerStates := triggerStates + [Entry(triggers[i], state)];
      }
      assert Map(EntryKey, triggerStates) == Map(TriggerKeyOf, triggers);
      forall e | e in triggerStates
        ensures EntryKey(e) in scheduler.triggers && e == Entry(scheduler.triggers[EntryKey(e)].trigger, scheduler.triggers[EntryKey(e)].state)
      {
        var j :| 0 <= j < |triggerStates| && triggerStates[j] == e;
        assert triggers[j] in triggers;
      }
      EnumerationLength(Map(EntryKey, triggerStates), TriggersOf(scheduler.triggers, jobKey));
      r := Response(OK, JobStatus(jobName, groupName, triggerStates));
    }

    /**
     * The part of `listAllScheduledJobs` that describes one job: its job line and a
     * line per trigger, in the order the store hands the triggers out.
     */
    method DescribeJob(jobKey: JobKey) returns (r: Result<seq<InfoLine>, SchedulerException>, ghost job: JobPlan)
      requires scheduler.Valid() && jobKey in scheduler.jobs
      ensures !scheduler.online ==> r == Err(JobStoreUnavailable)
      ensures scheduler.online ==>
        && job.key == jobKey && JobPlanFits(job, scheduler.jobs, scheduler.triggers)
        && r == Ok(JobBlock(job))
    {
      job := JobPlan(jobKey, "", []);
      var detail := scheduler.GetJobDetail(jobKey);
      var triggersOf := scheduler.GetTriggersOfJob(jobKey);
      var jobClass, triggers;
      match detail {
        case Err(e) => return Err(e), job;
        case Ok(d) => jobClass := if d.Some? then d.value.jobClass else "";
      }
      match triggersOf {
        case Err(e) => return Err(e), job;
        case Ok(ts) => triggers := ts;
      }
      var lines := [JobLine(jobKey.group, jobKey.name, jobClass, |triggers|)];
      ghost var rows: seq<TriggerRow> := [];
      for ti := 0 to |triggers|
        invariant |rows| == ti
        invariant forall i :: 0 <= i < ti ==> rows[i] == TriggerRow(triggers[i], StateOf(scheduler.triggers, triggers[i].key))
        invariant lines == [JobLine(jobKey.group, jobKey.name, jobClass, |triggers|)] + TriggerLines(rows)
      {
        var fetchedState := scheduler.GetTriggerState(triggers[ti].key);
        var state;
        match fetchedState {
          case Err(e) => return Err(e), job;
          case Ok(st) => state := st;
        }
        lines := lines + [TriggerLine(triggers[ti].key.name, triggers[ti].nextFireTime, state)];
        rows := rows + [TriggerRow(triggers[ti], state)];
      }
      job := JobPlan(jobKey, jobClass, rows);
      assert Map(RowKey, rows) == Map(TriggerKeyOf, triggers);
      r := Ok(lines);
    }

    /** The part of `listAllScheduledJobs` that describes one group: its group line and the blocks of its jobs. */
    method DescribeGroup(group: string) returns (r: Result<seq<InfoLine>, SchedulerException>, ghost g: GroupPlan)
      requires scheduler.Valid()
      ensures !scheduler.online ==> r == Err(JobStoreUnavailable)
      ensures scheduler.online ==>
        && g.group == group && GroupPlanFits(g, scheduler.jobs, scheduler.triggers)
        && r == Ok(GroupBlock(g))
    {
      g := GroupPlan(group, []);
      var keys := scheduler.GetJobKeys(group);
      var rest;
      match keys {
        case Err(e) => return Err(e), g;
        case Ok(ks) => rest := ks;
      }
      var lines := [GroupLine(group)];
      ghost var visited: seq<JobPlan> := [];
      while rest != {}
        invariant scheduler.online
        invariant rest <= JobsInGroup(scheduler.jobs, group)
        invariant lines == GroupBlock(GroupPlan(group, visited))
        invariant Distinct(Map(JobPlanKey, visited))
        invariant forall k :: k in Map(JobPlanKey, visited) <==> k in JobsInGroup(scheduler.jobs, group) && k !in rest
        invariant forall j :: j in visited ==> JobPlanFits(j, scheduler.jobs, scheduler.triggers)
        decreases rest
      {
        var jobKey :| jobKey in rest;
        rest := rest - {jobKey};
        var described, job := DescribeJob(jobKey);
        match described {
          case Err(e) => return Err(e), g;
          case Ok(block) => lines := lines + block;
        }
        assert JobBlocks(visited + [job]) == JobBlocks(visited) + JobBlock(job) by {
          assert (visited + [job])[..|visited|] == visited;
        }
        assert Map(JobPlanKey, visited + [job]) == Map(JobPlanKey, visited) + [jobKey];
        visited := visited + [job];
      }
      g := GroupPlan(group, visited);
      r := Ok(lines);
    }

    /**
     * `listAllScheduledJobs`: a group line per job group, then for each job of the
     * group a job line and its trigger lines, or the single "no jobs" line. `plan`
     * records the order in which the store handed out groups, jobs and triggers.
     */
    method ListAllScheduledJobs() returns (r: Response, ghost plan: seq<GroupPlan>)
      requires scheduler.Valid()
      ensures !scheduler.online ==>
        r == Response(INTERNAL_SERVER_ERROR, Text("Failed to list jobs: " + JobStoreUnavailable.Message()))
      ensures scheduler.online ==>
        && PlanFits(plan, scheduler.jobs, scheduler.triggers)
        && r == Response(OK, Lines(Listing(plan)))
    {
      plan := [];
      var fetched := scheduler.GetJobGroupNames();
      var jobGroups;
      match fetched {
        case Err(e) => return Response(INTERNAL_SERVER_ERROR, Text("Failed to list jobs: " + e.Message())), plan;
        case Ok(gs) => jobGroups := gs;
      }
      var jobInfo: seq<InfoLine> := [];
      for gi := 0 to |jobGroups|
        invariant jobInfo == GroupBlocks(plan)
        invariant Map(GroupName, plan) == jobGroups[..gi]
        invariant forall g :: g in plan ==> GroupPlanFits(g, scheduler.jobs, scheduler.triggers)
      {
        var described, g := DescribeGroup(jobGroups[gi]);
        match described {
          case Err(e) => return Response(INTERNAL_SERVER_ERROR, Text("Failed to list jobs: " + e.Message())), plan;
          case Ok(block) => jobInfo := jobInfo + block;
        }
        assert GroupBlocks(plan + [g]) == GroupBlocks(plan) + GroupBlock(g) by {
          assert (plan + [g])[..|plan|] == plan;
        }
        assert Map(GroupName, plan + [g]) == jobGroups[..gi + 1];
        plan := plan + [g];
      }
      assert jobGroups[..|jobGroups|] == jobGroups;
      if jobInfo == [] {
        jobInfo := [NoJobsLine];
      }
      r := Response(OK, Lines(jobInfo));
    }
  }

  /**
   * A marks job scheduled a moment ago has a trigger that has not fired yet, so
   * asking its status right away makes `getJobStatus` as written throw, while the
   * null-safe version reports the one trigger.
   */
  method StatusRightAfterScheduling(studentName: string, firstFireTime: int)
    returns (asWritten: Result<Response, UncheckedException>, corrected: Response)
    ensures asWritten == Err(NullPointerException)
    ensures corrected.status == OK && corrected.entity.JobStatus? && |corrected.entity.triggers| == 1
    ensures corrected.entity.triggers[0].nextFireTime == Some(firstFireTime)
    ensures corrected.entity.triggers[0].previousFireTime == None
  {
    var scheduler := new Scheduler();
    var repository := new StudentRepository([]);
    var service := new StudentService(scheduler, repository);
    service.ScheduleStudentMarksCalculation(studentName, 10, firstFireTime);
    var jobKey := MarksJobKey(studentName);
    var triggerKey := MarksTrigger(studentName).key;
    assert triggerKey in TriggersOf(scheduler.triggers, jobKey);
    asWritten := service.GetJobStatus(jobKey.name, jobKey.group);
    corrected := service.GetJobStatusNullSafe(jobKey.name, jobKey.group);
    assert TriggersOf(scheduler.triggers, jobKey) == {triggerKey};
    assert corrected.entity.triggers[0] in corrected.entity.triggers;
  }
}
