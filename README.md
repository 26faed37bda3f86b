# Student job administration — a Dafny model

This project models the job-administration core of a small Quarkus student
service that schedules work with Quartz. It has four parts:

- **The admin endpoints** of `StudentResource` (module `Resource`). Each handler
  is a pure function of the request and of the service's answer. First comes the
  authorization check, then the `jobName` check, then the default group, and
  last the mapping of a boolean verdict to 200 or 404.
- **The job façade** `StudentService` (module `Service`). It is a class over a
  Quartz `Scheduler` and a student repository. It disables, enables and cancels
  jobs, and reports the status of one job or lists all of them. It builds the
  identities of the marks-calculation job and schedules it. It also deletes
  students and invalidates the "student-details" cache.
- **The marks job** `StudentMarksJob.execute` (module `MarksJob`). It finds the
  first student with the name in the job data and stores the Java-`int` sum of
  that student's four subject marks as the total.
- **The report job** `StudentReportJob.execute` (module `ReportJob`). It counts
  all students and the students with positive marks, and computes the mean of
  those marks. It writes nothing.

Three modules support them:

- `Quartz` models the scheduler as an abstract store. It has a map from job keys
  to job details and a map from trigger keys to triggers with their state. Its
  methods carry the contracts the service relies on.
- `Repository` models the student table as a sequence of rows.
- `JavaLang` models Java's 32-bit `int` addition and `String.trim`/`contains`.

`SchedulerException` and database failures are modelled by an `online` flag on
the store. While the flag is false, every call fails and changes nothing. So
each operation's contract states its error path next to its normal result.

Quartz hands out groups, job keys and triggers in an order the store chooses.
`ListAllScheduledJobs` therefore returns, as a ghost value, the plan of the
order it followed. Its properties are proved about `Listing(plan)` for every
plan that agrees with the store (`PlanFits`).

## Behaviour worth knowing before reading the model

- **The authorization check is not negated.** The handlers return the bare 400
  when `authorizeSender` returns true. `authorizeSender` is a parameter of each
  handler, and the model keeps that test as the code has it.
- **The marks trigger is a cron trigger.** The comment on
  `scheduleStudentMarksCalculation` says the trigger is one-time and fires after
  the given delay. The code builds a cron trigger `0 */5 * * * ?` and only logs
  the delay. The model schedules the cron trigger, and `delayInSeconds` affects
  nothing.
- **The repository operations are Panache operations.** `StudentRepository`
  declares none of `deleteById`, `listAll`, `list` and `persist`, which the
  service and the jobs call. The model gives them the semantics of a Panache
  repository over the student table.

## Model

| member | source | states |
|---|---|---|
| JavaLang.AddInt | src/main/java/student/scheduler/StudentMarksJob.java:38-41 | Java `int` addition: the exact sum when it fits in 32 bits, otherwise the sum shifted by 2^32 into range (overflow and underflow cases) |
| JavaLang.AddIntChain | src/main/java/student/scheduler/StudentMarksJob.java:38-41 | three wrapping additions in a row equal the exact sum of the four operands wrapped once |
| JavaLang.TrimEmptyIff | src/main/java/student/resource/StudentResource.java:66 | `s.trim().isEmpty()` holds exactly when every character of `s` is at most U+0020 |
| Http.DecimalRoundTrip | src/main/java/student/service/StudentService.java:163-169 | the `%d` text of a trigger count is a non-empty string of digits that reads back as that count |
| Http.RenderedTriggerCount | src/main/java/student/service/StudentService.java:163-169 | the digits that end a rendered job line, just before its closing parenthesis, read back as the job's trigger count, whatever the group, name and class hold |
| Quartz.PausedAll | src/main/java/student/service/StudentService.java:210-211 | pausing a job sets every trigger of that job to Paused and leaves every other trigger and every key as it was |
| Quartz.ResumedAll | src/main/java/student/service/StudentService.java:234-235 | resuming a job turns its Paused triggers back to Normal and leaves everything else as it was |
| Quartz.WithoutJob | src/main/java/student/service/StudentService.java:134-135 | deleting a job removes exactly its triggers; the remaining ones are unchanged |
| Quartz.PauseThenResume | src/main/java/student/service/StudentService.java:197-243 | disabling and then enabling a job whose triggers were all running restores the store exactly |
| Quartz.PauseStopsJob | src/main/java/student/service/StudentService.java:210-211 | after a pause no trigger of the job is in a firing state, and pausing twice is the same as pausing once |
| Quartz.ResumeLeavesNonePaused | src/main/java/student/service/StudentService.java:234-235 | after a resume no trigger of the job is Paused, and resuming twice is the same as resuming once |
| Quartz.PauseResumeConsistent | src/main/java/student/service/StudentService.java:198 | pausing and resuming keep the store consistent: the job stays stored and every trigger stays bound to a stored job |
| Quartz.DeleteLeavesNoTrace | src/main/java/student/service/StudentService.java:132-135 | deleting keeps the store consistent, leaves the job no trigger, and makes the state of each former trigger NONE |
| Quartz.Bound | src/main/java/student/service/StudentService.java:95-101 | a scheduled trigger keeps its own key, is bound to the scheduled job, and starts in state Normal |
| Quartz.Scheduler.CheckExists | src/main/java/student/service/StudentService.java:205 | `checkExists` answers whether the job key is stored, or fails while the store is unreachable |
| Quartz.Scheduler.PauseJob | src/main/java/student/service/StudentService.java:211 | `pauseJob` replaces the triggers by `PausedAll` and keeps the jobs, or fails and changes nothing |
| Quartz.Scheduler.ResumeJob | src/main/java/student/service/StudentService.java:235 | `resumeJob` replaces the triggers by `ResumedAll` and keeps the jobs, or fails and changes nothing |
| Quartz.Scheduler.DeleteJob | src/main/java/student/service/StudentService.java:135 | `deleteJob` returns whether the job was stored, and removes it together with its triggers |
| Quartz.Scheduler.GetJobGroupNames | src/main/java/student/service/StudentService.java:150 | `getJobGroupNames` lists each group that holds a job exactly once |
| Quartz.Scheduler.GetJobKeys | src/main/java/student/service/StudentService.java:157 | `getJobKeys(jobGroupEquals(group))` is the set of stored job keys of that group |
| Quartz.Scheduler.GetJobDetail | src/main/java/student/service/StudentService.java:160 | `getJobDetail` is the stored detail, or null for an unknown key |
| Quartz.Scheduler.GetTriggersOfJob | src/main/java/student/service/StudentService.java:258 | `getTriggersOfJob` lists each trigger bound to the job exactly once, as stored |
| Quartz.Scheduler.GetTriggerState | src/main/java/student/service/StudentService.java:262 | `getTriggerState` is the stored state, or NONE for an unknown key |
| Quartz.Scheduler.ScheduleJob | src/main/java/student/service/StudentService.java:101 | `scheduleJob` stores the job and its trigger together. It stores neither, with ObjectAlreadyExists, when the job key or the trigger key is taken |
| Repository.WithoutId | src/main/java/student/service/StudentService.java:73 | deleting by id removes exactly the rows with that id, removes one row when the id is present and keeps ids unique |
| Repository.WithoutIdAppend | src/main/java/student/service/StudentService.java:73 | deleting by id from a table made of two stretches gives what is left of the first stretch followed by what is left of the second |
| Repository.WithoutIdKeepsOrder | src/main/java/student/service/StudentService.java:73 | deleting by id keeps the remaining rows in table order: every kept row has the kept rows before it in front of it and the kept rows after it behind it |
| Repository.StudentRepository.ListAll | src/main/java/student/scheduler/StudentReportJob.java:28 | `listAll` is the whole table, or fails while the database is unreachable |
| Repository.StudentRepository.ListByName | src/main/java/student/scheduler/StudentMarksJob.java:33 | `list("name", name)` gives, in table order, exactly the rows with that name; a null name matches none |
| Repository.StudentRepository.Persist | src/main/java/student/scheduler/StudentMarksJob.java:42-43 | persisting the managed entity writes its new field values into its own row only |
| Repository.StudentRepository.DeleteById | src/main/java/student/service/StudentService.java:73 | `deleteById` returns whether the id was present, and the table becomes `WithoutId` of the old one |
| Service.MarksJobDetail | src/main/java/student/service/StudentService.java:89-92 | the marks job is a `StudentMarksJob` keyed ("calculate-marks-"+name, "student-jobs") whose data map holds exactly studentName = name |
| Service.MarksTrigger | src/main/java/student/service/StudentService.java:95-98 | the marks trigger is keyed ("trigger-marks-"+name, "student-triggers") and runs on the cron schedule "0 */5 * * * ?" |
| Service.MarksIdentitiesDistinct | src/main/java/student/service/StudentService.java:89-98 | two different students get different job keys and different trigger keys, and all marks jobs share the group "student-jobs" |
| Service.ListingWellFormed | src/main/java/student/service/StudentService.java:159-181 | in the listing, each job line's trigger count equals the number of trigger lines that follow it, and every trigger line follows a job line |
| Service.ListingGroups | src/main/java/student/service/StudentService.java:150-187 | the listing has one "Job Group" line per group holding jobs, without repetition; "No jobs currently scheduled" appears exactly when there is no group |
| Service.ListedTriggerCount | src/main/java/student/service/StudentService.java:159-169 | a listed job is stored in the group it is listed under, and its trigger count is the number of triggers the store binds to it |
| Service.StudentService.DeleteStudentById | src/main/java/student/service/StudentService.java:72-78 | returns the repository's verdict and invalidates the cache exactly when a row was deleted; a database failure propagates |
| Service.StudentService.ScheduleStudentMarksCalculation | src/main/java/student/service/StudentService.java:86-106 | stores the marks job and its cron trigger when neither identity is taken, and otherwise changes nothing. The exception is swallowed and the delay plays no part |
| Service.StudentService.CancelScheduledJob | src/main/java/student/service/StudentService.java:132-140 | true exactly when the job existed and was removed with its triggers; a scheduler failure gives false and changes nothing |
| Service.StudentService.DisableJob | src/main/java/student/service/StudentService.java:200-219 | a missing job or a failure gives false with the store unchanged. An existing job has all its triggers paused, stays stored, and gives true |
| Service.StudentService.EnableJob | src/main/java/student/service/StudentService.java:224-243 | a missing job or a failure gives false with the store unchanged. An existing job has its paused triggers resumed and gives true |
| Service.StudentService.GetJobStatus | src/main/java/student/service/StudentService.java:248-282 | as written: 500 with the failure message, or 404 naming an unknown job. For a stored job it throws a NullPointerException exactly when some trigger of the job has a null fire time. Otherwise it answers 200 echoing name and group, with exactly one entry per trigger carrying its state and fire times |
| Service.StudentService.GetJobStatusNullSafe | src/main/java/student/service/StudentService.java:248-282 | corrected: the same answers, except that a stored job always gets 200 with exactly one entry per trigger, null fire times reported as absent |
| Service.StatusRightAfterScheduling | src/main/java/student/service/StudentService.java:263-269 | asking for the status of a marks job scheduled a moment ago throws as written, while the corrected version reports the one trigger with no previous fire time |
| Service.StudentService.DescribeJob | src/main/java/student/service/StudentService.java:159-181 | one job's part of the listing: its job line and a line per trigger, agreeing with the store |
| Service.StudentService.DescribeGroup | src/main/java/student/service/StudentService.java:153-182 | one group's part of the listing: its group line and the block of each of its jobs, each job once |
| Service.StudentService.ListAllScheduledJobs | src/main/java/student/service/StudentService.java:145-195 | 500 with the failure message, or 200 with the listing of a visit that lists every group, job and trigger of the store once |
| MarksJob.FirstNamed | src/main/java/student/scheduler/StudentMarksJob.java:35-36 | the position of the first row with the name, if any: that row has the name and no earlier row does |
| MarksJob.FirstOfQuery | src/main/java/student/scheduler/StudentMarksJob.java:33-36 | the first row of the `name` query is the first named row of the table, and the query is empty exactly when no row has the name |
| MarksJob.TotalMarks | src/main/java/student/scheduler/StudentMarksJob.java:38-41 | the total is english + telugu + maths + hindi wrapped to 32 bits, and exactly that sum when it fits |
| MarksJob.MarksUpdated | src/main/java/student/scheduler/StudentMarksJob.java:35-47 | only the first named row can change, only when it has a subject, only in `totalMarks`, and then to the sum of its marks |
| MarksJob.NoMatchNoChange | src/main/java/student/scheduler/StudentMarksJob.java:45-49 | when no named row has a subject, the job leaves the table unchanged |
| MarksJob.RunTwiceSameAsOnce | src/main/java/student/scheduler/StudentMarksJob.java:38-43 | running the job twice leaves the same table as running it once |
| MarksJob.KeepsIds | src/main/java/student/scheduler/StudentMarksJob.java:42-43 | the job keeps every primary key, so ids stay unique |
| MarksJob.Execute | src/main/java/student/scheduler/StudentMarksJob.java:27-55 | with the database reachable the table becomes `MarksUpdated` for the name in the job data; otherwise a JobExecutionException and no change |
| ReportJob.WithMarks | src/main/java/student/scheduler/StudentReportJob.java:32-34 | the filter keeps exactly the students with positive total marks |
| ReportJob.WithMarksCount | src/main/java/student/scheduler/StudentReportJob.java:32-34 | the filtered count equals the number of positions whose student has positive marks |
| ReportJob.NoneKeptIff | src/main/java/student/scheduler/StudentReportJob.java:32-34 | the filter keeps nobody exactly when no student has positive marks |
| ReportJob.SumAtLeastCount | src/main/java/student/scheduler/StudentReportJob.java:36-40 | positive integer totals add up to at least their number |
| ReportJob.Report | src/main/java/student/scheduler/StudentReportJob.java:28-40 | total = number of students; with-marks = number of positive positions, at most the total, zero exactly when nobody has marks; average 0 exactly when that count is 0, else the mean, which is at least 1 |
| ReportJob.Execute | src/main/java/student/scheduler/StudentReportJob.java:24-51 | the report over `listAll` or a JobExecutionException, with no state changed |
| Resource.ResolveGroup | src/main/java/student/resource/StudentResource.java:72 | the group is "DEFAULT" for a missing `groupName`, and any given one, blank included, is passed on unchanged |
| Resource.MissingJobNameIff | src/main/java/student/resource/StudentResource.java:66 | a job name is rejected exactly when it is absent or made only of characters `trim` removes |
| Resource.JobRequestGuard | src/main/java/student/resource/StudentResource.java:62-69 | a flagged sender gets the bare 400 before the name is looked at; otherwise a blank name gets 400 "Job name is required"; only the remaining requests pass |
| Resource.ActionResponse | src/main/java/student/resource/StudentResource.java:76-81 | 200 exactly when the service said true, else 404; the body names the job and the action, and on 200 the group too |
| Resource.CancelScheduledJob | src/main/java/student/resource/StudentResource.java:56-82 | a flagged sender gets the bare 400, a blank name gets 400 with its message, otherwise 200 exactly when the service cancelled the job in the resolved group, else 404 |
| Resource.DisableJob | src/main/java/student/resource/StudentResource.java:84-110 | the same guards, then 200 exactly when the service disabled the job in the resolved group, else 404 |
| Resource.EnableJob | src/main/java/student/resource/StudentResource.java:112-138 | the same guards, then 200 exactly when the service enabled the job in the resolved group, else 404 |
| Resource.GetJobStatus | src/main/java/student/resource/StudentResource.java:140-159 | the same guards, then the service's status answer for the resolved group, unchanged; an exception that escapes the service becomes the framework's 500 |
| Resource.DeleteStudentById | src/main/java/student/resource/StudentResource.java:46-54 | a flagged sender gets the bare 400. Otherwise 200 with the student list exactly when a row was deleted and the list was read, and 304 exactly when nothing was deleted. A database failure in either call becomes the framework's 500 |
| Resource.AuthorizedOnly | src/main/java/student/resource/StudentResource.java:164-169 | a flagged sender gets the bare 400; otherwise the service's answer is returned unchanged |

## Left out

- Quartz internals are not modelled: cron parsing, next-fire-time computation, misfire handling, the firing loop and the durable job store. `ScheduleJob` takes the first fire time as a parameter. `Trigger` keeps its fire times as given.
- Quartz.PausedAll: marks every trigger of the job Paused, as the code's comment says. It does not model Quartz's PAUSED_BLOCKED state or its keeping of Complete triggers.
- Service.StudentService.DisableJob: a scheduler failure is modelled as lasting the whole call. So the path where `checkExists` succeeds and `pauseJob` then throws, answering false for an existing job, is not modelled.
- Service.StudentService.EnableJob: a scheduler failure is modelled as lasting the whole call. So the path where `checkExists` succeeds and `resumeJob` then throws, answering false for an existing job, is not modelled.
- Service.StudentService.GetJobStatus: a scheduler failure is modelled as lasting the whole call. A 500 after `checkExists` succeeded, from a later `getTriggersOfJob` or `getTriggerState`, is not modelled.
- Service.StudentService.GetJobStatusNullSafe: a scheduler failure is modelled as lasting the whole call, as for `GetJobStatus`.
- Service.StudentService.ListAllScheduledJobs: a scheduler failure is modelled as lasting the whole call. A 500 partway through the listing, after some groups were read, is not modelled.
- MarksJob.Execute: a database failure is modelled as lasting the whole call. A failure of `persist` after the query succeeded is not modelled.
- Quartz.Scheduler.ScheduleJob: stores job and trigger atomically. It does not model partial failure inside the store.
- The order in which the store hands out groups, jobs and triggers is left open. The listing is proved for every order (the ghost plan).
- Exception messages are the model's own text, so the 500 bodies and JobExecutionException causes hold the model's messages rather than Quartz's or Hibernate's.
- The `Date` values in the listing are rendered as epoch milliseconds, not as `Date.toString()`.
- Thread-based scheduling is not modelled: `scheduleStudentMarksCalculationAsync` spawns a thread and sleeps, which is timing and concurrency.
- Transaction, cache-annotation and REST-client plumbing is not modelled: `calculateTotalMarks`, `getStudentDetails`, `getStudentDetailsByClient` and `invalidateAll`. The cache is a field that deletion resets.
- ReportJob.Report: the average is the exact rational mean, without `double` rounding.
- The bodies of `setTotalStudentMarks`, `getTotalStudentDetails` and `getScheduledJobs` are modelled only up to the authorization check (`AuthorizedOnly`). `saveStudent` and `getScheduledJobs` do not exist in the service. `getScheduledJobs` is taken to be `listAllScheduledJobs`.
- Http.EscapedExceptionResponse: an exception that escapes a handler is modelled as a 500 with no entity. The error page the framework renders is not modelled.
- Resource handlers do not call the service methods themselves. Each takes the service's answer, failures included, as a function parameter, so the handler contracts hold for whatever the service answers.
- Authorization is not modelled: the `Authorize` class is not part of this model, and `authorizeSender` is an uninterpreted parameter.
- Logging is not modelled.
- `StudentScheduler` and `StudentSyncJob` only log over `listAll`, so they are not modelled.
- The REST clients, `GreetingResource` and `QuartzJobModel` are not modelled.
- Entity fields that no core operation reads are kept only as data: the show's URL and genres.

## Findings

| source | as written | input that shows it | evidently intended | confidence | as-written member | corrected member |
|---|---|---|---|---|---|---|
| src/main/java/student/service/StudentService.java:263-269 | each status entry is built with `Map.of`, which throws a NullPointerException for a null value. `getPreviousFireTime()` is null until a trigger first fires, and `getNextFireTime()` is null once it will not fire again. The `catch (SchedulerException e)` does not handle the exception, so it escapes the endpoint as the framework's 500 | schedule the marks job for "ann", then ask `getJobStatus("calculate-marks-ann", "student-jobs")` before its trigger has fired | 200 with one entry per trigger, a missing fire time reported as null (a map that accepts null values) | high, not executed | Service.StatusRightAfterScheduling | Service.StudentService.GetJobStatusNullSafe |
