/** The student endpoints of students/views.py: the read views are filter-then-order
    projections of the tables, and registration inserts into the registration table. */
module StudentViews {
  import opened Wrappers
  import opened Sequences
  import opened Text
  import opened AccountModel
  import opened AccountPermissions
  import opened Catalog
  import opened Enrolment

  /** The answer of a list endpoint: refused by its permissions, or the rows in order. */
  datatype Listing<+T> = Denied | Listed(items: seq<T>)

  /** The ids of the courses `student` is registered for. */
  function RegisteredCourses(rows: seq<Registration>, student: UserId): (ids: set<CourseId>)
    ensures forall id :: id in ids <==> HasPair(rows, student, id)
  {
    set r | r in rows && r.student == student :: r.course
  }

  /** AvailableCoursesView: every course ordered by code, for any signed-in user. */
  function AvailableCourses(req: Requester, courses: seq<Course>): (r: Listing<Course>)
    ensures r.Listed? <==> IsAuthenticated(req)
    ensures r.Listed? ==> multiset(r.items) == multiset(courses) && SortedBy(r.items, ByCode)
  {
    if !IsAuthenticated(req) then Denied
    else
      ByCodeOrders();
      Listed(SortBy(courses, ByCode))
  }

  /** MyCoursesView: the courses the requesting student is registered for, in table order. */
  function MyCourses(req: Requester, courses: seq<Course>, rows: seq<Registration>): (r: Listing<Course>)
    ensures r.Listed? <==> IsStudent(req)
    ensures r.Listed? ==> forall c :: c in r.items <==> c in courses && HasPair(rows, req.id, c.id)
    ensures r.Listed? && Distinct(courses) ==> Distinct(r.items)
  {
    if !IsStudent(req) then Denied
    else
      var ids := RegisteredCourses(rows, req.id);
      var keep := (c: Course) => c.id in ids;
      assert Distinct(courses) ==> Distinct(Filter(courses, keep)) by {
        if Distinct(courses) {
          FilterDistinct(courses, keep);
        }
      }
      Listed(Filter(courses, keep))
  }

  /** The timetable rows of the courses `student` is registered for, in table order. */
  function RegisteredSlots(slots: seq<Slot>, rows: seq<Registration>, student: UserId): (r: seq<Slot>)
    ensures forall s :: s in r <==> s in slots && HasPair(rows, student, s.info.course)
    ensures forall s: Slot {:trigger multiset(r)[s]} ::
              multiset(r)[s] == if HasPair(rows, student, s.info.course) then multiset(slots)[s] else 0
  {
    var ids := RegisteredCourses(rows, student);
    Filter(slots, (s: Slot) => s.info.course in ids)
  }

  /** PersonalTimetableView: the student's timetable rows ordered by day (as text), then start. */
  function PersonalTimetable(req: Requester, slots: seq<Slot>, rows: seq<Registration>): (r: Listing<Slot>)
    ensures r.Listed? <==> IsStudent(req)
    ensures r.Listed? ==> multiset(r.items) == multiset(RegisteredSlots(slots, rows, req.id))
    ensures r.Listed? ==> forall s :: s in r.items <==> s in slots && HasPair(rows, req.id, s.info.course)
    ensures r.Listed? ==> SortedBy(r.items, ByDayTime)
  {
    if !IsStudent(req) then Denied
    else
      ByDayTimeOrders();
      var items := SortBy(RegisteredSlots(slots, rows, req.id), ByDayTime);
      assert forall s :: s in items <==> s in RegisteredSlots(slots, rows, req.id) by {
        forall s ensures s in items <==> s in RegisteredSlots(slots, rows, req.id) {
          assert s in items <==> s in multiset(items);
        }
      }
      Listed(items)
  }

  /** RegisterCourseView: a student registers themself for a course. */
  method RegisterCourse(req: Requester, table: RegistrationTable, course: CourseId, now: int,
                        students: set<UserId>, courses: set<CourseId>)
    returns (r: Option<InsertOutcome>)
    requires table.Valid()
    modifies table
    ensures table.Valid()
    ensures r.None? <==> !IsStudent(req)
    ensures r != Some(Added) ==> table.rows == old(table.rows)
    ensures r.Some? ==>
      && (r.value == Added <==> req.id in students && course in courses && !HasPair(old(table.rows), req.id, course))
      && (r.value == Added ==> table.rows == old(table.rows) + [Registration(req.id, course, now)])
  {
    if !IsStudent(req) {
      return None;
    }
    var outcome := table.Insert(req.id, course, now, students, courses);
    r := Some(outcome);
  }

  /** Days are compared as text, so a Friday row is listed before a Monday row. */
  lemma DaysSortAsText(course: CourseId, start: int, end: int)
    ensures var monday := Slot(0, SlotInfo(course, "Monday", start, end, ""));
            var friday := Slot(1, SlotInfo(course, "Friday", start, end, ""));
            ByDayTime(friday, monday) && !ByDayTime(monday, friday)
  {
    assert "Friday"[0] == 'F' && "Monday"[0] == 'M';
  }

  /** A student registered for one course with a Monday and a Friday row sees Friday first. */
  lemma TimetableListsFridayFirst(id: UserId, course: CourseId, start: int, end: int)
    ensures var monday := Slot(0, SlotInfo(course, "Monday", start, end, ""));
            var friday := Slot(1, SlotInfo(course, "Friday", start, end, ""));
            PersonalTimetable(Member(id, Student), [monday, friday], [Registration(id, course, 0)])
              == Listed([friday, monday])
  {
    var monday := Slot(0, SlotInfo(course, "Monday", start, end, ""));
    var friday := Slot(1, SlotInfo(course, "Friday", start, end, ""));
    var rows := [Registration(id, course, 0)];
    DaysSortAsText(course, start, end);
    assert HasPair(rows, id, course) by {
      assert rows[0] in rows;
    }
    var registered := RegisteredSlots([monday, friday], rows, id);
    assert multiset(registered) == multiset{monday, friday};
    var listing := PersonalTimetable(Member(id, Student), [monday, friday], rows);
    SortedPair(listing.items, monday, friday, ByDayTime);
  }
}
