/**
 * The JAX-RS `Response` values the resource and the service return: a status
 * code and an entity. Entities are kept structured; `Render` gives the text the
 * job listing serialises.
 */
module Http {
  import opened Wrappers
  import opened Entities
  import Quartz

  const OK: int := 200
  const NOT_MODIFIED: int := 304
  const BAD_REQUEST: int := 400
  const NOT_FOUND: int := 404
  const INTERNAL_SERVER_ERROR: int := 500

  /** One entry of the job-status body: a trigger of the job and what the scheduler reports about it. */
  datatype TriggerStatus = TriggerStatus(
    triggerName: string,
    triggerGroup: string,
    state: string,
    nextFireTime: Option<int>,
    previousFireTime: Option<int>)

  /** One line of the scheduled-jobs listing. */
  datatype InfoLine =
    | GroupLine(group: string)
    | JobLine(jobGroup: string, jobName: string, jobClass: string, triggerCount: nat)
    | TriggerLine(triggerName: string, nextFireTime: Option<int>, state: Quartz.TriggerState)
    | NoJobsLine

  datatype Entity =
    | NoEntity
    | Text(text: string)
    | Lines(lines: seq<InfoLine>)
    | Students(students: seq<Student>)
    | JobStatus(jobName: string, jobGroup: string, triggers: seq<TriggerStatus>)

  datatype Response = Response(status: int, entity: Entity)

  /** An unchecked exception that no `catch` of the core handles. */
  datatype UncheckedException = NullPointerException

  /** The framework's 500 for an exception that escapes a handler; its error page is not modelled. */
  const EscapedExceptionResponse: Response := Response(INTERNAL_SERVER_ERROR, NoEntity)

  /** `Response.status(BAD_REQUEST).build()`: a 400 without a body. */
  const BareBadRequest: Response := Response(BAD_REQUEST, NoEntity)

  /** Decimal digits of a natural number, as `%d` prints it. */
  function Decimal(n: nat): string
    decreases n
  {
    var digit := ['0' + (n % 10) as char];
    if n < 10 then digit else Decimal(n / 10) + digit
  }

  /** The number a string of decimal digits denotes. */
  function DigitsValue(s: string): int
    decreases |s|
  {
    if s == [] then 0 else DigitsValue(s[..|s| - 1]) * 10 + (s[|s| - 1] as int - '0' as int)
  }

  /** `%d` prints at least one digit, only digits, and reads back as the number printed. */
  lemma {:induction false} DecimalRoundTrip(n: nat)
    ensures |Decimal(n)| > 0 && forall i :: 0 <= i < |Decimal(n)| ==> IsDigit(Decimal(n)[i])
    ensures DigitsValue(Decimal(n)) == n
    decreases n
  {
    var d := Decimal(n);
    var last := ['0' + (n % 10) as char];
    if n < 10 {
      assert d == last && d[..0] == [];
    } else {
      DecimalRoundTrip(n / 10);
      assert d == Decimal(n / 10) + last;
      assert d[..|d| - 1] == Decimal(n / 10);
    }
  }

  predicate IsDigit(c: char) {
    '0' <= c <= '9'
  }

  /** The longest run of digits at the end of `s`. */
  function TrailingDigits(s: string): (r: string)
    ensures |r| <= |s| && r == s[|s| - |r|..]
    decreases |s|
  {
    if s == [] || !IsDigit(s[|s| - 1]) then [] else TrailingDigits(s[..|s| - 1]) + [s[|s| - 1]]
  }

  lemma {:induction false} TrailingDigitsAfter(p: string, d: string)
    requires p == [] || !IsDigit(p[|p| - 1])
    requires forall i :: 0 <= i < |d| ==> IsDigit(d[i])
    ensures TrailingDigits(p + d) == d
    decreases |d|
  {
    if d == [] {
      assert p + d == p;
    } else {
      var d' := d[..|d| - 1];
      assert (p + d)[..|p + d| - 1] == p + d';
      TrailingDigitsAfter(p, d');
    }
  }

  /** The count a listing line ends with: the digits just before its closing parenthesis. */
  function TrailingCount(text: string): int {
    if text == [] then 0 else DigitsValue(TrailingDigits(text[..|text| - 1]))
  }

  /** The rendered `Triggers: n` of a job line reads back as the job's trigger count, whatever its names hold. */
  lemma RenderedTriggerCount(group: string, name: string, jobClass: string, count: nat)
    ensures TrailingCount(Render(JobLine(group, name, jobClass, count))) == count
  {
    var head := "  Job: " + group + "." + name + " (Class: " + jobClass + ", Triggers: ";
    var text := Render(JobLine(group, name, jobClass, count));
    assert text == head + Decimal(count) + ")";
    assert text[..|text| - 1] == head + Decimal(count);
    DecimalRoundTrip(count);
    TrailingDigitsAfter(head, Decimal(count));
  }

  /**
   * `%s` of a `java.util.Date` that may be null, written as its epoch
   * milliseconds. A helper of `Render`.
   */
  function DateText(d: Option<int>): string {
    match d
    case None => "null"
    case Some(ms) => if ms < 0 then "-" + Decimal(-ms) else Decimal(ms)
  }

  /**
   * The text of a listing line, in the listing's `String.format` layout. It is
   * a helper of `ListAllScheduledJobs`, whose properties are stated on the
   * structured lines; `RenderedTriggerCount` ties the text of a job line to its count.
   */
  function Render(line: InfoLine): string {
    match line
    case GroupLine(g) => "Job Group: " + g
    case JobLine(g, n, c, k) => "  Job: " + g + "." + n + " (Class: " + c + ", Triggers: " + Decimal(k) + ")"
    case TriggerLine(n, next, st) => "    Trigger: " + n + " (Next: " + DateText(next) + ", State: " + st.Name() + ")"
    case NoJobsLine => "No jobs currently scheduled"
  }
}
