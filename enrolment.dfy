/** The CourseRegistration table of students/models.py: one row per (student, course) pair,
    removed with either the student or the course. */
module Enrolment {
  import opened Sequences
  import opened AccountModel
  import opened Catalog

  /** A registration row; `registeredAt` is the clock reading at insertion. */
  datatype Registration = Registration(student: UserId, course: CourseId, registeredAt: int)

  datatype InsertOutcome = Added | MissingStudent | MissingCourse | Duplicate

  /** The (student, course) pair, the table's unique_together key. */
  function PairOf(r: Registration): (UserId, CourseId) {
    (r.student, r.course)
  }

  predicate HasPair(rows: seq<Registration>, student: UserId, course: CourseId) {
    exists r :: r in rows && r.student == student && r.course == course
  }

  /** Every row names an existing student and an existing course. */
  ghost predicate References(rows: seq<Registration>, students: set<UserId>, courses: set<CourseId>) {
    forall r :: r in rows ==> r.student in students && r.course in courses
  }

  /** The rows that survive deleting student `student`. */
  function WithoutStudent(rows: seq<Registration>, student: UserId): (r: seq<Registration>)
    ensures forall x :: x in r <==> x in rows && x.student != student
    ensures KeysDistinct(rows, PairOf) ==> KeysDistinct(r, PairOf)
  {
    var keep := (x: Registration) => x.student != student;
    assert KeysDistinct(rows, PairOf) ==> KeysDistinct(Filter(rows, keep), PairOf) by {
      if KeysDistinct(rows, PairOf) {
        FilterKeysDistinct(rows, keep, PairOf);
      }
    }
    Filter(rows, keep)
  }

  /** The rows that survive deleting course `course`. */
  function WithoutCourse(rows: seq<Registration>, course: CourseId): (r: seq<Registration>)
    ensures forall x :: x in r <==> x in rows && x.course != course
    ensures KeysDistinct(rows, PairOf) ==> KeysDistinct(r, PairOf)
  {
    var keep := (x: Registration) => x.course != course;
    assert KeysDistinct(rows, PairOf) ==> KeysDistinct(Filter(rows, keep), PairOf) by {
      if KeysDistinct(rows, PairOf) {
        FilterKeysDistinct(rows, keep, PairOf);
      }
    }
    Filter(rows, keep)
  }

  /** After either cascade every remaining row still names a student and a course that exist. */
  lemma CascadesKeepReferences(rows: seq<Registration>, students: set<UserId>, courses: set<CourseId>,
                               student: UserId, course: CourseId)
    requires References(rows, students, courses)
    ensures References(WithoutStudent(rows, student), students - {student}, courses)
    ensures References(WithoutCourse(rows, course), students, courses - {course})
  {
  }

  class RegistrationTable {
    var rows: seq<Registration>

    ghost predicate Valid()
      reads this
    {
      KeysDistinct(rows, PairOf)
    }

    constructor ()
      ensures Valid() && rows == []
    {
      rows := [];
    }

    /** Insert a registration: both ends must exist and the pair must be new. */
    method Insert(student: UserId, course: CourseId, now: int, students: set<UserId>, courses: set<CourseId>)
      returns (r: InsertOutcome)
      requires Valid()
      modifies this
      ensures Valid()
      ensures r == Added <==> student in students && course in courses && !HasPair(old(rows), student, course)
      ensures r == Added ==> rows == old(rows) + [Registration(student, course, now)]
      ensures r != Added ==> rows == old(rows)
      ensures r == Duplicate <==> student in students && course in courses && HasPair(old(rows), student, course)
    {
      if student !in students {
        return MissingStudent;
      }
      if course !in courses {
        return MissingCourse;
      }
      if HasPair(rows, student, course) {
        return Duplicate;
      }
      var row := Registration(student, course, now);
      forall j | 0 <= j < |rows| ensures PairOf(rows[j]) != PairOf(row) {
        assert rows[j] in rows;
      }
      AppendKeepsKeys(rows, row, PairOf);
      rows := rows + [row];
      r := Added;
    }

    /** The cascade when a user is deleted. */
    method DeleteStudent(student: UserId)
      requires Valid()
      modifies this
      ensures Valid()
      ensures rows == WithoutStudent(old(rows), student)
    {
      rows := WithoutStudent(rows, student);
    }

    /** The cascade when a course is deleted. */
    method DeleteCourse(course: CourseId)
      requires Valid()
      modifies this
      ensures Valid()
      ensures rows == WithoutCourse(old(rows), course)
    {
      rows := WithoutCourse(rows, course);
    }
  }
}
