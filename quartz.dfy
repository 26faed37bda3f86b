/**
 * The part of the Quartz scheduler API the service uses, as an abstract job
 * store: a map from job keys to job details and a map from trigger keys to
 * scheduled triggers with their state. Next-fire-time computation, cron
 * parsing and the firing loop belong to the library and are not modelled; a
 * store that cannot be reached makes every call throw `SchedulerException`.
 */
module Quartz {
  import opened Wrappers
  import opened Seqs

  /** `org.quartz.JobKey`: a job's (name, group) identity. */
  datatype JobKey = JobKey(name: string, group: string)

  /** `org.quartz.TriggerKey`: a trigger's (name, group) identity, separate from job keys. */
  datatype TriggerKey = TriggerKey(name: string, group: string)

  /** `Trigger.TriggerState`. `NoTrigger` (Quartz's NONE) answers for a key that is not stored. */
  datatype TriggerState = NoTrigger | Normal | Paused | Complete | Error | Blocked {
    /** `state.toString()`. */
    function Name(): string {
      match this
      case NoTrigger => "NONE"
      case Normal => "NORMAL"
      case Paused => "PAUSED"
      case Complete => "COMPLETE"
      case Error => "ERROR"
      case Blocked => "BLOCKED"
    }
  }

  /** `JobDetail`: identity, the simple name of the job class, and the job data map. */
  datatype JobDetail = JobDetail(key: JobKey, jobClass: string, data: map<string, string>)

  /** What `TriggerBuilder...build()` yields before scheduling: an identity and a cron schedule. */
  datatype TriggerSpec = TriggerSpec(key: TriggerKey, cronExpression: string)

  /** A trigger as stored: bound to its job, with the fire times Quartz computed for it. */
  datatype Trigger = Trigger(
    key: TriggerKey,
    jobKey: JobKey,
    cronExpression: string,
    nextFireTime: Option<int>,
    previousFireTime: Option<int>)

  datatype TriggerRecord = TriggerRecord(trigger: Trigger, state: TriggerState)

  /** `SchedulerException` and its `ObjectAlreadyExistsException` subclass. */
  datatype SchedulerException = JobStoreUnavailable | ObjectAlreadyExists(what: string) {
    function Message(): string {
      match this
      case JobStoreUnavailable => "job store unavailable"
      case ObjectAlreadyExists(what) => "unable to store " + what + ": it already exists"
    }
  }

  type Triggers = map<TriggerKey, TriggerRecord>
  type Jobs = map<JobKey, JobDetail>

  /** No element occurs twice. */
  ghost predicate Distinct<T>(s: seq<T>) {
    forall i, j :: 0 <= i < j < |s| ==> s[i] != s[j]
  }

  /** A list without repetitions that enumerates exactly the set `s`. */
  ghost predicate Enumerates<T(!new)>(r: seq<T>, s: set<T>) {
    Distinct(r) && forall x :: x in r <==> x in s
  }

  /** A list enumerating a set has one position per element. */
  lemma {:induction false} EnumerationLength<T(!new)>(r: seq<T>, s: set<T>)
    requires Enumerates(r, s)
    ensures |r| == |s|
  {
    if r != [] {
      var rest := s - {r[0]};
      forall x ensures x in r[1..] <==> x in rest {
        if x in r[1..] {
          var j :| 1 <= j < |r| && r[j] == x;
          assert r[0] != r[j];
        }
      }
      EnumerationLength(r[1..], rest);
    }
  }

  /** A trigger's key. */
  function TriggerKeyOf(t: Trigger): TriggerKey {
    t.key
  }

  /** Keys of the triggers bound to `job` (`getTriggersOfJob`). */
  function TriggersOf(triggers: Triggers, job: JobKey): set<TriggerKey> {
    set t | t in triggers && triggers[t].trigger.jobKey == job
  }

  /** `getTriggerState`: the stored state, or NONE for an unknown key. */
  function StateOf(triggers: Triggers, t: TriggerKey): TriggerState {
    if t in triggers then triggers[t].state else NoTrigger
  }

  /** The groups that hold at least one job (`getJobGroupNames`). */
  function JobGroups(jobs: Jobs): set<string> {
    set k | k in jobs :: k.group
  }

  /** The keys of the jobs in one group (`getJobKeys(jobGroupEquals(group))`). */
  function JobsInGroup(jobs: Jobs, group: string): set<JobKey> {
    set k | k in jobs && k.group == group
  }

  /** The store's invariant: entries sit under their own keys, and every trigger is bound to a stored job and has a real state. */
  ghost predicate Consistent(jobs: Jobs, triggers: Triggers) {
    && (forall k :: k in jobs ==> jobs[k].key == k)
    && (forall t :: t in triggers ==>
          triggers[t].trigger.key == t && triggers[t].trigger.jobKey in jobs && triggers[t].state != NoTrigger)
  }

  /** `pauseJob`: "this disables all triggers for this job"; every other trigger is left alone. */
  function PausedAll(triggers: Triggers, job: JobKey): (r: Triggers)
    ensures r.Keys == triggers.Keys
    ensures forall t :: t in TriggersOf(triggers, job) ==> r[t] == triggers[t].(state := Paused)
    ensures forall t :: t in triggers && t !in TriggersOf(triggers, job) ==> r[t] == triggers[t]
  {
    map t | t in triggers ::
      if triggers[t].trigger.jobKey == job then triggers[t].(state := Paused) else triggers[t]
  }

  /** `resumeJob`: "this re-enables all triggers for this job": its paused triggers become normal again. */
  function ResumedAll(triggers: Triggers, job: JobKey): (r: Triggers)
    ensures r.Keys == triggers.Keys
    ensures forall t :: t in TriggersOf(triggers, job) && triggers[t].state == Paused ==> r[t] == triggers[t].(state := Normal)
    ensures forall t :: t in triggers && (t !in TriggersOf(triggers, job) || triggers[t].state != Paused) ==> r[t] == triggers[t]
  {
    map t | t in triggers ::
      if triggers[t].trigger.jobKey == job && triggers[t].state == Paused then triggers[t].(state := Normal) else triggers[t]
  }

  /** `deleteJob`: the job's triggers go with it. */
  function WithoutJob(triggers: Triggers, job: JobKey): (r: Triggers)
    ensures r.Keys == triggers.Keys - TriggersOf(triggers, job)
    ensures forall t :: t in r ==> r[t] == triggers[t]
  {
    map t | t in triggers && triggers[t].trigger.jobKey != job :: triggers[t]
  }

  /**
   * Pausing a job whose triggers are all running and resuming it again restores
   * the store exactly. Fire times are unchanged only because no time passes in
   * this model; Quartz applies its misfire handling on resume.
   */
  lemma PauseThenResume(triggers: Triggers, job: JobKey)
    requires forall t :: t in TriggersOf(triggers, job) ==> triggers[t].state == Normal
    ensures ResumedAll(PausedAll(triggers, job), job) == triggers
  {
    var p := PausedAll(triggers, job);
    assert TriggersOf(p, job) == TriggersOf(triggers, job);
  }

  /** After pausing, none of the job's triggers is eligible to fire, and pausing again changes nothing. */
  lemma PauseStopsJob(triggers: Triggers, job: JobKey)
    ensures forall t :: t in TriggersOf(PausedAll(triggers, job), job) ==> StateOf(PausedAll(triggers, job), t) == Paused
    ensures PausedAll(PausedAll(triggers, job), job) == PausedAll(triggers, job)
  {
    assert TriggersOf(PausedAll(triggers, job), job) == TriggersOf(triggers, job);
  }

  /** After resuming, none of the job's triggers is paused, and resuming again changes nothing. */
  lemma ResumeLeavesNonePaused(triggers: Triggers, job: JobKey)
    ensures forall t :: t in TriggersOf(ResumedAll(triggers, job), job) ==> StateOf(ResumedAll(triggers, job), t) != Paused
    ensures ResumedAll(ResumedAll(triggers, job), job) == ResumedAll(triggers, job)
  {
    assert TriggersOf(ResumedAll(triggers, job), job) == TriggersOf(triggers, job);
  }

  /** Pausing and resuming keep the store consistent. */
  lemma PauseResumeConsistent(jobs: Jobs, triggers: Triggers, job: JobKey)
    requires Consistent(jobs, triggers)
    ensures Consistent(jobs, PausedAll(triggers, job))
    ensures Consistent(jobs, ResumedAll(triggers, job))
  {
  }

  /** Deleting a job keeps the store consistent and leaves no trigger of it: every former trigger reports NONE. */
  lemma DeleteLeavesNoTrace(jobs: Jobs, triggers: Triggers, job: JobKey)
    requires Consistent(jobs, triggers)
    ensures Consistent(jobs - {job}, WithoutJob(triggers, job))
    ensures TriggersOf(WithoutJob(triggers, job), job) == {}
    ensures forall t :: t in TriggersOf(triggers, job) ==> StateOf(WithoutJob(triggers, job), t) == NoTrigger
  {
  }

  /** The trigger Quartz stores for `spec` when it schedules it for `job`, first firing at `firstFireTime`. */
  function Bound(spec: TriggerSpec, job: JobKey, firstFireTime: int): (r: TriggerRecord)
    ensures r.trigger.key == spec.key && r.trigger.jobKey == job && r.state == Normal
  {
    TriggerRecord(Trigger(spec.key, job, spec.cronExpression, Some(firstFireTime), None), Normal)
  }

  /** A list of the elements of a set, in an order the store chooses. */
  method Enumerate<T(!new)>(s: set<T>) returns (r: seq<T>)
    ensures Enumerates(r, s)
  {
    r := [];
    var rest := s;
    while rest != {}
      invariant rest <= s
      invariant Distinct(r)
      invariant forall x :: x in r <==> x in s && x !in rest
      decreases rest
    {
      var x :| x in rest;
      r := r + [x];
      rest := rest - {x};
    }
  }

  /** The scheduler as the service sees it. */
  class Scheduler {
    /** False while the job store cannot be reached: every call then throws and changes nothing. */
    var online: bool
    var jobs: Jobs
    var triggers: Triggers

    ghost predicate Valid()
      reads this
    {
      Consistent(jobs, triggers)
    }

    constructor ()
      ensures Valid() && online && jobs == map[] && triggers == map[]
    {
      online := true;
      jobs := map[];
      triggers := map[];
    }

    /** `checkExists(JobKey)`. */
    method CheckExists(key: JobKey) returns (r: Result<bool, SchedulerException>)
      ensures r == if online then Ok(key in jobs) else Err(JobStoreUnavailable)
    {
      if !online {
        return Err(JobStoreUnavailable);
      }
      r := Ok(key in jobs);
    }

    /** `pauseJob(JobKey)`. */
    method PauseJob(key: JobKey) returns (r: Outcome<SchedulerException>)
      requires Valid()
      modifies this
      ensures Valid() && online == old(online) && jobs == old(jobs)
      ensures r == if online then Pass else Fail(JobStoreUnavailable)
      ensures triggers == if online then PausedAll(old(triggers), key) else old(triggers)
    {
      if !online {
        return Fail(JobStoreUnavailable);
      }
      PauseResumeConsistent(jobs, triggers, key);
      triggers := PausedAll(triggers, key);
      r := Pass;
    }

    /** `resumeJob(JobKey)`. */
    method ResumeJob(key: JobKey) returns (r: Outcome<SchedulerException>)
      requires Valid()
      modifies this
      ensures Valid() && online == old(online) && jobs == old(jobs)
      ensures r == if online then Pass else Fail(JobStoreUnavailable)
      ensures triggers == if online then ResumedAll(old(triggers), key) else old(triggers)
    {
      if !online {
        return Fail(JobStoreUnavailable);
      }
      PauseResumeConsistent(jobs, triggers, key);
      triggers := ResumedAll(triggers, key);
      r := Pass;
    }

    /** `deleteJob(JobKey)`: true when the job was found and removed with all its triggers. */
    method DeleteJob(key: JobKey) returns (r: Result<bool, SchedulerException>)
      requires Valid()
      modifies this
      ensures Valid() && online == old(online)
      ensures r == if online then Ok(key in old(jobs)) else Err(JobStoreUnavailable)
      ensures jobs == if online then old(jobs) - {key} else old(jobs)
      ensures triggers == if online then WithoutJob(old(triggers), key) else old(triggers)
    {
      if !online {
        return Err(JobStoreUnavailable);
      }
      DeleteLeavesNoTrace(jobs, triggers, key);
      r := Ok(key in jobs);
      jobs := jobs - {key};
      triggers := WithoutJob(triggers, key);
    }

    /** `getJobGroupNames()`. */
    method GetJobGroupNames() returns (r: Result<seq<string>, SchedulerException>)
      ensures !online ==> r == Err(JobStoreUnavailable)
      ensures online ==> r.Ok? && Enumerates(r.value, JobGroups(jobs))
    {
      if !online {
        return Err(JobStoreUnavailable);
      }
      var groups := Enumerate(JobGroups(jobs));
      r := Ok(groups);
    }

    /** `getJobKeys(GroupMatcher.jobGroupEquals(group))`. */
    method GetJobKeys(group: string) returns (r: Result<set<JobKey>, SchedulerException>)
      ensures r == if online then Ok(JobsInGroup(jobs, group)) else Err(JobStoreUnavailable)
    {
      if !online {
        return Err(JobStoreUnavailable);
      }
      r := Ok(JobsInGroup(jobs, group));
    }

    /** `getJobDetail(JobKey)`: null for an unknown key. */
    method GetJobDetail(key: JobKey) returns (r: Result<Option<JobDetail>, SchedulerException>)
      ensures r == if !online then Err(JobStoreUnavailable) else if key in jobs then Ok(Some(jobs[key])) else Ok(None)
    {
      if !online {
        return Err(JobStoreUnavailable);
      }
      r := if key in jobs then Ok(Some(jobs[key])) else Ok(None);
    }

    /** `getTriggersOfJob(JobKey)`: each trigger of the job once, in the store's order. */
    method GetTriggersOfJob(key: JobKey) returns (r: Result<seq<Trigger>, SchedulerException>)
      requires Valid()
      ensures !online ==> r == Err(JobStoreUnavailable)
      ensures online ==> r.Ok? && Enumerates(Map(TriggerKeyOf, r.value), TriggersOf(triggers, key))
      ensures online ==> forall tr :: tr in r.value ==> tr.key in triggers && triggers[tr.key].trigger == tr
    {
      if !online {
        return Err(JobStoreUnavailable);
      }
      var keys := Enumerate(TriggersOf(triggers, key));
      var ts := triggers;
      assert forall i :: 0 <= i < |keys| ==> keys[i] in TriggersOf(ts, key);
      var list := seq(|keys|, i requires 0 <= i < |keys| && keys[i] in ts => ts[keys[i]].trigger);
      assert Map(TriggerKeyOf, list) == keys;
      forall tr | tr in list ensures tr.key in ts && ts[tr.key].trigger == tr {
        var i :| 0 <= i < |list| && list[i] == tr;
        assert tr.key == keys[i];
      }
      r := Ok(list);
    }

    /** `getTriggerState(TriggerKey)`. */
    method GetTriggerState(key: TriggerKey) returns (r: Result<TriggerState, SchedulerException>)
      ensures r == if online then Ok(StateOf(triggers, key)) else Err(JobStoreUnavailable)
    {
      if !online {
        return Err(JobStoreUnavailable);
      }
      r := Ok(StateOf(triggers, key));
    }

    /**
     * `scheduleJob(JobDetail, Trigger)`: stores the job and its trigger together, or
     * neither when either identity is taken. `firstFireTime` is the first time the
     * cron schedule yields, which Quartz computes and this model takes as given.
     */
    method ScheduleJob(detail: JobDetail, spec: TriggerSpec, firstFireTime: int) returns (r: Result<int, SchedulerException>)
      requires Valid()
      modifies this
      ensures Valid() && online == old(online)
      ensures !online ==> r == Err(JobStoreUnavailable)
      ensures online && detail.key in old(jobs) ==> r == Err(ObjectAlreadyExists("job"))
      ensures online && detail.key !in old(jobs) && spec.key in old(triggers) ==> r == Err(ObjectAlreadyExists("trigger"))
      ensures online && detail.key !in old(jobs) && spec.key !in old(triggers) ==> r.Ok?
      ensures r.Err? ==> jobs == old(jobs) && triggers == old(triggers)
      ensures r.Ok? ==>
        && r.value == firstFireTime
        && jobs == old(jobs)[detail.key := detail]
        && triggers == old(triggers)[spec.key := Bound(spec, detail.key, firstFireTime)]
    {
      if !online {
        return Err(JobStoreUnavailable);
      }
      if detail.key in jobs {
        return Err(ObjectAlreadyExists("job"));
      }
      if spec.key in triggers {
        return Err(ObjectAlreadyExists("trigger"));
      }
      jobs := jobs[detail.key := detail];
      triggers := triggers[spec.key := Bound(spec, detail.key, firstFireTime)];
      r := Ok(firstFireTime);
    }
  }
}
