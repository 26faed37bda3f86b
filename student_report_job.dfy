/**
 * `StudentReportJob.execute`: the daily statistics over all students — how
 * many there are, how many have positive total marks, and the mean of those
 * totals. It reads the table and writes nothing.
 */
module ReportJob {
  import opened Wrappers
  import opened Entities
  import opened Repository
  import opened MarksJob

  /** The stream filter `s.getTotalMarks() > 0`. */
  predicate HasMarks(s: Student) {
    s.totalMarks > 0
  }

  /** The students the filter keeps, in list order. */
  function WithMarks(students: seq<Student>): (r: seq<Student>)
    ensures forall s :: s in r <==> s in students && HasMarks(s)
    ensures |r| <= |students|
    decreases |students|
  {
    if students == [] then []
    else
      var last := students[|students| - 1];
      WithMarks(students[..|students| - 1]) + (if HasMarks(last) then [last] else [])
  }

  /** The positions of the students with positive marks. */
  function PositiveIndices(students: seq<Student>): set<int> {
    set i | 0 <= i < |students| && HasMarks(students[i])
  }

  lemma PositiveIndicesSnoc(students: seq<Student>)
    requires students != []
    ensures var n := |students| - 1;
      PositiveIndices(students) == PositiveIndices(students[..n]) + (if HasMarks(students[n]) then {n} else {})
  {
    var n := |students| - 1;
    assert forall i :: 0 <= i < n ==> students[..n][i] == students[i];
  }

  /** The filter keeps one student per position with positive marks. */
  lemma {:induction false} WithMarksCount(students: seq<Student>)
    ensures |WithMarks(students)| == |PositiveIndices(students)|
    decreases |students|
  {
    if students != [] {
      var n := |students| - 1;
      var init := students[..n];
      WithMarksCount(init);
      PositiveIndicesSnoc(students);
      var before := PositiveIndices(init);
      assert n !in before;
      if HasMarks(students[n]) {
        assert |before + {n}| == |before| + 1;
      }
    }
  }

  /** The integer sum of the totals (Java accumulates it in a `long`). */
  function SumMarks(students: seq<Student>): int
    decreases |students|
  {
    if students == [] then 0 else SumMarks(students[..|students| - 1]) + students[|students| - 1].totalMarks
  }

  /** Totals that are all positive integers add up to at least their number. */
  lemma {:induction false} SumAtLeastCount(students: seq<Student>)
    requires forall i :: 0 <= i < |students| ==> HasMarks(students[i])
    ensures SumMarks(students) >= |students|
    decreases |students|
  {
    if students != [] {
      SumAtLeastCount(students[..|students| - 1]);
    }
  }

  /** What the job logs as its daily report. */
  datatype DailyReport = DailyReport(totalStudents: nat, studentsWithMarks: nat, averageMarks: real)

  lemma QuotientAtLeastOne(a: real, b: real)
    requires 0.0 < b <= a
    ensures a / b >= 1.0
  {
  }

  /** The report for a list of students. */
  function Report(students: seq<Student>): (r: DailyReport)
    ensures r.totalStudents == |students|
    ensures r.studentsWithMarks == |PositiveIndices(students)|
    ensures r.studentsWithMarks <= r.totalStudents
    ensures r.studentsWithMarks == 0 <==> forall i :: 0 <= i < |students| ==> !HasMarks(students[i])
    ensures r.averageMarks == 0.0 <==> r.studentsWithMarks == 0
    ensures r.studentsWithMarks > 0 ==> r.averageMarks >= 1.0
    ensures r.studentsWithMarks > 0 ==>
      r.averageMarks == (SumMarks(WithMarks(students)) as real) / (r.studentsWithMarks as real)
  {
    var kept := WithMarks(students);
    WithMarksCount(students);
    NoneKeptIff(students);
    if kept == [] then
      DailyReport(|students|, 0, 0.0)
    else
      KeptHaveMarks(students);
      SumAtLeastCount(kept);
      var sum, count := SumMarks(kept) as real, |kept| as real;
      QuotientAtLeastOne(sum, count);
      DailyReport(|students|, |kept|, sum / count)
  }

  lemma NoneKeptIff(students: seq<Student>)
    ensures WithMarks(students) == [] <==> forall i :: 0 <= i < |students| ==> !HasMarks(students[i])
  {
    var kept := WithMarks(students);
    if kept != [] {
      assert kept[0] in students;
    } else {
      forall i | 0 <= i < |students| ensures !HasMarks(students[i]) {
        assert students[i] in students;
      }
    }
  }

  lemma KeptHaveMarks(students: seq<Student>)
    ensures forall i :: 0 <= i < |WithMarks(students)| ==> HasMarks(WithMarks(students)[i])
  {
    var kept := WithMarks(students);
    forall i | 0 <= i < |kept| ensures HasMarks(kept[i]) {
      assert kept[i] in kept;
    }
  }

  /** `execute`: the report over `listAll()`, or the failure rethrown; no row is written. */
  method Execute(repository: StudentRepository) returns (r: Result<DailyReport, JobExecutionException>)
    ensures r == if repository.online then Ok(Report(repository.rows)) else Err(JobExecutionException(DatabaseUnavailable.Message()))
  {
    var listed := repository.ListAll();
    match listed {
      case Err(e) => return Err(JobExecutionException(e.Message()));
      case Ok(students) => r := Ok(Report(students));
    }
  }
}
