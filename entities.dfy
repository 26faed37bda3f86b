/**
 * The persistent records of the service. They are plain data holders; the
 * model keeps the fields the scheduled jobs read or write.
 */
module Entities {
  import opened Wrappers
  import opened JavaLang

  /** The four subject marks of a student (entity `Subject`). */
  datatype Subject = Subject(subjectId: Int32, telugu: Int32, hindi: Int32, english: Int32, maths: Int32)

  /** A favourite show attached to a student (entity `TvShow`); its URL is kept as text. */
  datatype TvShow = TvShow(tvShowId: Int32, url: Option<string>, name: Option<string>, genres: Option<set<string>>)

  /** A student row (entity `Student`). `subject` and `tvShow` are nullable one-to-one relations. */
  datatype Student = Student(
    studentId: Int32,
    name: Option<string>,
    age: Int32,
    totalMarks: Int32,
    subject: Option<Subject>,
    tvShow: Option<TvShow>)

  /** The identifier column is the primary key: no two rows share it. */
  ghost predicate UniqueIds(rows: seq<Student>) {
    forall i, j :: 0 <= i < j < |rows| ==> rows[i].studentId != rows[j].studentId
  }
}
