/**
 * `StudentResource`: the HTTP endpoints under `/student`. Every handler first
 * asks `authorizeSender` about the `Authorization` header and answers a bare
 * 400 when it says true; the job endpoints then insist on a non-blank
 * `jobName` and default a missing `groupName` to "DEFAULT". The service calls a
 * handler makes are its function parameters, so a handler that answers without
 * consulting one is one whose result does not depend on it.
 */
module Resource {
  import opened Wrappers
  import opened JavaLang
  import opened Entities
  import opened Http
  import opened Repository

  const DEFAULT_GROUP: string := "DEFAULT"
  const JOB_NAME_REQUIRED: string := "Job name is required"

  /** `groupName != null ? groupName : "DEFAULT"`: only a missing parameter is defaulted; a blank one is passed on. */
  function ResolveGroup(groupName: Option<string>): (group: string)
    ensures groupName.None? ==> group == DEFAULT_GROUP
    ensures groupName.Some? ==> group == groupName.value
  {
    if groupName.Some? then groupName.value else DEFAULT_GROUP
  }

  /** `jobName == null || jobName.trim().isEmpty()`. */
  predicate MissingJobName(jobName: Option<string>) {
    jobName.None? || Trim(jobName.value) == []
  }

  /** A job name is missing exactly when it is absent or made only of characters `trim` removes. */
  lemma MissingJobNameIff(jobName: Option<string>)
    ensures MissingJobName(jobName) <==>
      jobName.None? || forall i :: 0 <= i < |jobName.value| ==> TrimmedAway(jobName.value[i])
  {
    if jobName.Some? {
      TrimEmptyIff(jobName.value);
    }
  }

  /**
   * The guards in front of the four job endpoints, in source order: the
   * authorization check, then the job-name check. `None` lets the request through.
   */
  function JobRequestGuard(authorizeSender: Option<string> -> bool, authorization: Option<string>, jobName: Option<string>): (r: Option<Response>)
    ensures authorizeSender(authorization) ==> r == Some(BareBadRequest)
    ensures !authorizeSender(authorization) && MissingJobName(jobName) ==> r == Some(Response(BAD_REQUEST, Text(JOB_NAME_REQUIRED)))
    ensures r.None? <==> !authorizeSender(authorization) && !MissingJobName(jobName)
    ensures r.Some? ==> r.value.status == BAD_REQUEST
  {
    if authorizeSender(authorization) then Some(BareBadRequest)
    else if MissingJobName(jobName) then Some(Response(BAD_REQUEST, Text(JOB_NAME_REQUIRED)))
    else None
  }

  /**
   * The answer of the cancel, disable and enable endpoints to the service's
   * verdict: 200 naming the job and its group, or 404 naming the job.
   */
  function ActionResponse(done: bool, jobName: string, group: string, participle: string): (r: Response)
    ensures r.status == OK <==> done
    ensures r.status == OK || r.status == NOT_FOUND
    ensures r.entity.Text? && Contains(r.entity.text, jobName) && Contains(r.entity.text, participle)
    ensures done ==> Contains(r.entity.text, group)
  {
    var text := if done then "Successfully " + participle + " job: " + jobName + " in group: " + group
                else "Job not found or could not be " + participle + ": " + jobName;
    ContainsInConcat("Successfully ", participle, participle);
    ContainsInConcat("Successfully " + participle, " job: ", participle);
    ContainsInConcat("Successfully " + participle + " job: ", jobName, participle);
    ContainsInConcat("Successfully " + participle + " job: ", jobName, jobName);
    ContainsInConcat("Successfully " + participle + " job: " + jobName, " in group: ", participle);
    ContainsInConcat("Successfully " + participle + " job: " + jobName, " in group: ", jobName);
    ContainsInConcat("Successfully " + participle + " job: " + jobName + " in group: ", group, participle);
    ContainsInConcat("Successfully " + participle + " job: " + jobName + " in group: ", group, jobName);
    ContainsInConcat("Successfully " + participle + " job: " + jobName + " in group: ", group, group);
    ContainsInConcat("Job not found or could not be ", participle, participle);
    ContainsInConcat("Job not found or could not be " + participle, ": ", participle);
    ContainsInConcat("Job not found or could not be " + participle + ": ", jobName, participle);
    ContainsInConcat("Job not found or could not be " + participle + ": ", jobName, jobName);
    Response(if done then OK else NOT_FOUND, Text(text))
  }

  /** `DELETE /student/cancel-job`: 200 exactly when the service cancelled the job in the resolved group. */
  function CancelScheduledJob(
    authorizeSender: Option<string> -> bool, authorization: Option<string>,
    jobName: Option<string>, groupName: Option<string>,
    cancelScheduledJob: (string, string) -> bool): (r: Response)
    ensures authorizeSender(authorization) ==> r == BareBadRequest
    ensures !authorizeSender(authorization) && MissingJobName(jobName) ==> r == Response(BAD_REQUEST, Text(JOB_NAME_REQUIRED))
    ensures !authorizeSender(authorization) && !MissingJobName(jobName) ==>
      var cancelled := cancelScheduledJob(jobName.value, ResolveGroup(groupName));
      && (r.status == OK <==> cancelled)
      && (!cancelled ==> r.status == NOT_FOUND)
      && r.entity.Text? && Contains(r.entity.text, jobName.value)
      && (cancelled ==> Contains(r.entity.text, ResolveGroup(groupName)))
  {
    match JobRequestGuard(authorizeSender, authorization, jobName)
    case Some(rejected) => rejected
    case None =>
      var group := ResolveGroup(groupName);
      ActionResponse(cancelScheduledJob(jobName.value, group), jobName.value, group, "cancelled")
  }

  /** `PUT /student/disable-job`: 200 exactly when the service paused the job in the resolved group. */
  function DisableJob(
    authorizeSender: Option<string> -> bool, authorization: Option<string>,
    jobName: Option<string>, groupName: Option<string>,
    disableJob: (string, string) -> bool): (r: Response)
    ensures authorizeSender(authorization) ==> r == BareBadRequest
    ensures !authorizeSender(authorization) && MissingJobName(jobName) ==> r == Response(BAD_REQUEST, Text(JOB_NAME_REQUIRED))
    ensures !authorizeSender(authorization) && !MissingJobName(jobName) ==>
      var disabled := disableJob(jobName.value, ResolveGroup(groupName));
      && (r.status == OK <==> disabled)
      && (!disabled ==> r.status == NOT_FOUND)
      && r.entity.Text? && Contains(r.entity.text, jobName.value)
      && (disabled ==> Contains(r.entity.text, ResolveGroup(groupName)))
  {
    match JobRequestGuard(authorizeSender, authorization, jobName)
    case Some(rejected) => rejected
    case None =>
      var group := ResolveGroup(groupName);
      ActionResponse(disableJob(jobName.value, group), jobName.value, group, "disabled")
  }

  /** `PUT /student/enable-job`: 200 exactly when the service resumed the job in the resolved group. */
  function EnableJob(
    authorizeSender: Option<string> -> bool, authorization: Option<string>,
    jobName: Option<string>, groupName: Option<string>,
    enableJob: (string, string) -> bool): (r: Response)
    ensures authorizeSender(authorization) ==> r == BareBadRequest
    ensures !authorizeSender(authorization) && MissingJobName(jobName) ==> r == Response(BAD_REQUEST, Text(JOB_NAME_REQUIRED))
    ensures !authorizeSender(authorization) && !MissingJobName(jobName) ==>
      var enabled := enableJob(jobName.value, ResolveGroup(groupName));
      && (r.status == OK <==> enabled)
      && (!enabled ==> r.status == NOT_FOUND)
      && r.entity.Text? && Contains(r.entity.text, jobName.value)
      && (enabled ==> Contains(r.entity.text, ResolveGroup(groupName)))
  {
    match JobRequestGuard(authorizeSender, authorization, jobName)
    case Some(rejected) => rejected
    case None =>
      var group := ResolveGroup(groupName);
      ActionResponse(enableJob(jobName.value, group), jobName.value, group, "enabled")
  }

  /**
   * `GET /student/job-status`: the service's answer for the resolved group,
   * passed on unchanged; an exception the service lets escape becomes the
   * framework's 500.
   */
  function GetJobStatus(
    authorizeSender: Option<string> -> bool, authorization: Option<string>,
    jobName: Option<string>, groupName: Option<string>,
    getJobStatus: (string, string) -> Result<Response, UncheckedException>): (r: Response)
    ensures authorizeSender(authorization) ==> r == BareBadRequest
    ensures !authorizeSender(authorization) && MissingJobName(jobName) ==> r == Response(BAD_REQUEST, Text(JOB_NAME_REQUIRED))
    ensures !authorizeSender(authorization) && !MissingJobName(jobName) ==>
      var answer := getJobStatus(jobName.value, ResolveGroup(groupName));
      && (answer.Ok? ==> r == answer.value)
      && (answer.Err? ==> r == EscapedExceptionResponse)
  {
    match JobRequestGuard(authorizeSender, authorization, jobName)
    case Some(rejected) => rejected
    case None =>
      match getJobStatus(jobName.value, ResolveGroup(groupName))
      case Ok(answer) => answer
      case Err(_) => EscapedExceptionResponse
  }

  /**
   * `DELETE /student/delete-student`: the student list (`getStudentDetails`
   * after the deletion) when a row was deleted, 304 when none was. A database
   * failure in either call escapes as the framework's 500.
   */
  function DeleteStudentById(
    authorizeSender: Option<string> -> bool, authorization: Option<string>,
    id: int, deleteStudentById: int -> Result<bool, PersistenceException>,
    studentsAfter: Result<seq<Student>, PersistenceException>): (r: Response)
    ensures authorizeSender(authorization) ==> r == BareBadRequest
    ensures !authorizeSender(authorization) ==>
      && (r.status == OK <==> deleteStudentById(id) == Ok(true) && studentsAfter.Ok?)
      && (r.status == OK ==> r.entity == Students(studentsAfter.value))
      && (r.status == NOT_MODIFIED <==> deleteStudentById(id) == Ok(false))
      && (r.status == NOT_MODIFIED ==> r.entity == NoEntity)
      && (deleteStudentById(id).Err? ==> r == EscapedExceptionResponse)
      && (deleteStudentById(id) == Ok(true) && studentsAfter.Err? ==> r == EscapedExceptionResponse)
  {
    if authorizeSender(authorization) then BareBadRequest
    else match deleteStudentById(id)
      case Err(_) => EscapedExceptionResponse
      case Ok(false) => Response(NOT_MODIFIED, NoEntity)
      case Ok(true) =>
        match studentsAfter
        case Err(_) => EscapedExceptionResponse
        case Ok(students) => Response(OK, Students(students))
  }

  /**
   * The prefix shared by `setTotalStudentMarks`, `getTotalStudentDetails` and
   * `getScheduledJobs`: a bare 400 when the sender check says true, otherwise
   * what the service answers.
   */
  function AuthorizedOnly(authorizeSender: Option<string> -> bool, authorization: Option<string>, served: Response): (r: Response)
    ensures authorizeSender(authorization) ==> r == BareBadRequest
    ensures !authorizeSender(authorization) ==> r == served
  {
    if authorizeSender(authorization) then BareBadRequest else served
  }
}
