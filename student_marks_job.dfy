/**
 * `StudentMarksJob.execute`: looks up the students named in the job data and
 * stores the sum of the first one's four subject marks as its total. Any
 * failure is rethrown as a `JobExecutionException`.
 */
module MarksJob {
  import opened Wrappers
  import opened JavaLang
  import opened Entities
  import opened Repository
  import Service

  /** The exception a Quartz job throws to report a failed run; `cause` is the wrapped exception's message. */
  datatype JobExecutionException = JobExecutionException(cause: string)

  /**
   * `getJobDataMap().getString("studentName")`: `None` (null) when the key is
   * absent. A helper of `Execute`, whose contract is stated through it.
   */
  function StudentNameOf(data: map<string, string>): Option<string> {
    if Service.STUDENT_NAME_KEY in data then Some(data[Service.STUDENT_NAME_KEY]) else None
  }

  /** The row matches the query `name = ?`; a null name matches no row. */
  predicate Named(s: Student, name: Option<string>) {
    name.Some? && s.name == name
  }

  /** The position of the first row named `name`, if any. */
  function FirstNamed(rows: seq<Student>, name: Option<string>): (r: Option<nat>)
    ensures r.Some? ==> r.value < |rows| && Named(rows[r.value], name)
    ensures r.Some? ==> forall j :: 0 <= j < r.value ==> !Named(rows[j], name)
    ensures r.None? ==> forall j :: 0 <= j < |rows| ==> !Named(rows[j], name)
    decreases |rows|
  {
    if rows == [] then None
    else if Named(rows[0], name) then Some(0)
    else match FirstNamed(rows[1..], name)
      case None => None
      case Some(k) => Some(k + 1)
  }

  /** The first row of a `name = ?` query is the first named row of the table. */
  lemma FirstOfQuery(rows: seq<Student>, name: Option<string>, ps: seq<nat>)
    requires NamedPositions(rows, name, ps)
    ensures |ps| == 0 <==> FirstNamed(rows, name).None?
    ensures |ps| > 0 ==> FirstNamed(rows, name) == Some(ps[0])
  {
    match FirstNamed(rows, name)
    case None =>
      if |ps| > 0 {
        assert Named(rows[ps[0]], name);
      }
    case Some(f) =>
      assert f in ps;
      assert Named(rows[ps[0]], name);
  }

  /** `english + telugu + maths + hindi` in Java `int` arithmetic, left to right. */
  function TotalMarks(subject: Subject): (r: Int32)
    ensures r == Wrap32(subject.english + subject.telugu + subject.maths + subject.hindi)
    ensures -0x8000_0000 <= subject.english + subject.telugu + subject.maths + subject.hindi < 0x8000_0000 ==>
      r == subject.english + subject.telugu + subject.maths + subject.hindi
  {
    AddIntChain(subject.english, subject.telugu, subject.maths, subject.hindi);
    AddInt(AddInt(AddInt(subject.english, subject.telugu), subject.maths), subject.hindi)
  }

  /** The table after one run of the job for `name`. */
  function MarksUpdated(rows: seq<Student>, name: Option<string>): (r: seq<Student>)
    ensures |r| == |rows|
    ensures forall j :: 0 <= j < |rows| ==> r[j] == rows[j].(totalMarks := r[j].totalMarks)
    ensures forall j :: 0 <= j < |rows| && FirstNamed(rows, name) != Some(j) ==> r[j] == rows[j]
    ensures forall j :: 0 <= j < |rows| && rows[j].subject.None? ==> r[j] == rows[j]
    ensures forall j :: 0 <= j < |rows| && FirstNamed(rows, name) == Some(j) && rows[j].subject.Some? ==>
      r[j].totalMarks == TotalMarks(rows[j].subject.value)
  {
    match FirstNamed(rows, name)
    case None => rows
    case Some(i) =>
      if rows[i].subject.None? then rows
      else rows[i := rows[i].(totalMarks := TotalMarks(rows[i].subject.value))]
  }

  /** Only the first named row can change, and only when it has a subject: no match leaves the table as it was. */
  lemma NoMatchNoChange(rows: seq<Student>, name: Option<string>)
    requires forall j :: 0 <= j < |rows| ==> !Named(rows[j], name) || rows[j].subject.None?
    ensures MarksUpdated(rows, name) == rows
  {
    var r := MarksUpdated(rows, name);
    assert forall j :: 0 <= j < |rows| ==> r[j] == rows[j];
  }

  /** The first named row depends on the names alone. */
  lemma {:induction false} FirstNamedByNames(a: seq<Student>, b: seq<Student>, name: Option<string>)
    requires |a| == |b| && forall j :: 0 <= j < |a| ==> a[j].name == b[j].name
    ensures FirstNamed(a, name) == FirstNamed(b, name)
    decreases |a|
  {
    if a != [] {
      FirstNamedByNames(a[1..], b[1..], name);
    }
  }

  /** Running the job a second time changes nothing: the total depends only on the subject marks. */
  lemma {:induction false} RunTwiceSameAsOnce(rows: seq<Student>, name: Option<string>)
    ensures MarksUpdated(MarksUpdated(rows, name), name) == MarksUpdated(rows, name)
  {
    var once := MarksUpdated(rows, name);
    FirstNamedByNames(rows, once, name);
  }

  /** The job keeps every identifier, so the primary key stays unique. */
  lemma KeepsIds(rows: seq<Student>, name: Option<string>)
    requires UniqueIds(rows)
    ensures UniqueIds(MarksUpdated(rows, name))
  {
    var r := MarksUpdated(rows, name);
    assert forall j :: 0 <= j < |rows| ==> r[j].studentId == rows[j].studentId;
  }

  /**
   * `execute`: with the database reachable the table becomes `MarksUpdated` of
   * its old rows for the student named in `data`; otherwise the failure is
   * rethrown and nothing changes.
   */
  method Execute(repository: StudentRepository, data: map<string, string>) returns (r: Outcome<JobExecutionException>)
    requires repository.Valid()
    modifies repository
    ensures repository.Valid() && repository.online == old(repository.online)
    ensures r == if old(repository.online) then Pass else Fail(JobExecutionException(DatabaseUnavailable.Message()))
    ensures repository.rows == if old(repository.online) then MarksUpdated(old(repository.rows), StudentNameOf(data)) else old(repository.rows)
  {
    var studentName := StudentNameOf(data);
    var listed := repository.ListByName(studentName);
    var students;
    match listed {
      case Err(e) => return Fail(JobExecutionException(e.Message()));
      case Ok(ps) => students := ps;
    }
    FirstOfQuery(repository.rows, studentName, students);
    if |students| > 0 {
      var student := repository.rows[students[0]];
      if student.subject.Some? {
        var totalMarks := AddInt(AddInt(AddInt(student.subject.value.english, student.subject.value.telugu),
                                        student.subject.value.maths), student.subject.value.hindi);
        student := student.(totalMarks := totalMarks);
        var persisted := repository.Persist(students[0], student);
        match persisted {
          case Fail(e) => return Fail(JobExecutionException(e.Message()));
          case Pass =>
        }
      }
    }
    r := Pass;
  }
}
