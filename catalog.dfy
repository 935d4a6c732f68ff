/** The Course and Timetable tables of admin_panel/models.py: courses with a unique code and
    bounded text columns, timetable rows that name their course and disappear with it, and
    the checks the model serializers of admin_panel/serializers.py apply before a row is
    written. Times are minutes since midnight. */
module Catalog {
  import opened Wrappers
  import opened Text
  import opened Sequences
  import opened FieldErrors

  type CourseId = nat
  type SlotId = nat

  /** The editable columns of a Course. */
  datatype CourseInfo = CourseInfo(
    code: string, title: string, program: string, level: string, semester: string, lecturer: string)

  datatype Course = Course(id: CourseId, info: CourseInfo)

  /** The editable columns of a Timetable row. */
  datatype SlotInfo = SlotInfo(course: CourseId, dayOfWeek: string, startTime: int, endTime: int, venue: string)

  datatype Slot = Slot(id: SlotId, info: SlotInfo)

  /** The answer of a create or detail endpoint. */
  datatype Outcome<+T> = Forbidden | NotFound | Rejected(errors: Errors) | Done(value: T)

  const CodeMax := 20
  const TitleMax := 255
  const ProgramMax := 120
  const LevelMax := 20
  const SemesterMax := 10
  const LecturerMax := 255
  const DayMax := 10
  const VenueMax := 255

  function CourseIdOf(c: Course): CourseId { c.id }
  function CodeOf(c: Course): string { c.info.code }
  function SlotIdOf(s: Slot): SlotId { s.id }

  // ---------------------------------------------------------------------------
  // What a row may hold
  // ---------------------------------------------------------------------------

  /** The column bounds of Course: code and title required, every column within its max_length. */
  predicate CourseFits(info: CourseInfo) {
    && info.code != "" && |info.code| <= CodeMax
    && info.title != "" && |info.title| <= TitleMax
    && |info.program| <= ProgramMax
    && |info.level| <= LevelMax
    && |info.semester| <= SemesterMax
    && |info.lecturer| <= LecturerMax
  }

  /** The column bounds of Timetable: day required, both text columns within max_length. */
  predicate SlotFits(info: SlotInfo) {
    info.dayOfWeek != "" && |info.dayOfWeek| <= DayMax && |info.venue| <= VenueMax
  }

  predicate HasCourse(courses: seq<Course>, id: CourseId) {
    exists c :: c in courses && c.id == id
  }

  predicate HasSlot(slots: seq<Slot>, id: SlotId) {
    exists s :: s in slots && s.id == id
  }

  /** Some course other than `id` already uses `code` (pass a fresh id when creating). */
  predicate CodeTaken(courses: seq<Course>, code: string, id: CourseId) {
    exists c :: c in courses && c.info.code == code && c.id != id
  }

  /** The messages of the unique `code` column: blank, or taken and then too long. */
  function CodeErrors(code: string, taken: bool): (m: seq<string>)
    ensures m == [] <==> code != "" && !taken && |code| <= CodeMax
  {
    if code == "" then [BlankMessage]
    else (if taken then [UniqueMessage("course", "code")] else []) +
         (if |code| > CodeMax then [MaxLengthMessage(CodeMax)] else [])
  }

  /** CourseSerializer's validation of a full course body: each column reports its own
      messages under its own name. */
  function CourseErrors(info: CourseInfo, codeTaken: bool): (e: Errors)
    ensures e.Keys == {} <==> CourseFits(info) && !codeTaken
  {
    var code := Field("code", CodeErrors(info.code, codeTaken));
    var title := Field("title", ColumnErrors(info.title, TitleMax, false));
    var program := Field("program", ColumnErrors(info.program, ProgramMax, true));
    var level := Field("level", ColumnErrors(info.level, LevelMax, true));
    var semester := Field("semester", ColumnErrors(info.semester, SemesterMax, true));
    var lecturer := Field("lecturer", ColumnErrors(info.lecturer, LecturerMax, true));
    var e := code + title + program + level + semester + lecturer;
    assert e.Keys == code.Keys + title.Keys + program.Keys + level.Keys + semester.Keys + lecturer.Keys;
    e
  }

  /** TimetableSerializer's validation of a full timetable body. */
  function SlotErrors(info: SlotInfo, courseExists: bool): (e: Errors)
    ensures e.Keys == {} <==> SlotFits(info) && courseExists
    ensures "course" in e <==> !courseExists
  {
    var course := Field("course", if courseExists then [] else [MissingRowMessage(info.course)]);
    var day := Field("day_of_week", ColumnErrors(info.dayOfWeek, DayMax, false));
    var venue := Field("venue", ColumnErrors(info.venue, VenueMax, true));
    var e := course + day + venue;
    assert e.Keys == course.Keys + day.Keys + venue.Keys;
    e
  }

  // ---------------------------------------------------------------------------
  // The tables' invariants
  // ---------------------------------------------------------------------------

  ghost predicate CourseTable(courses: seq<Course>, nextId: CourseId) {
    && KeysDistinct(courses, CourseIdOf)
    && KeysDistinct(courses, CodeOf)
    && (forall c :: c in courses ==> c.id < nextId && CourseFits(c.info))
  }

  /** Every timetable row names a course of `courses`. */
  ghost predicate SlotTable(slots: seq<Slot>, nextId: SlotId, courses: seq<Course>) {
    && KeysDistinct(slots, SlotIdOf)
    && (forall s :: s in slots ==> s.id < nextId && SlotFits(s.info) && HasCourse(courses, s.info.course))
  }

  /** The courses other than `id`. */
  function OtherCourses(courses: seq<Course>, id: CourseId): (r: seq<Course>)
    ensures forall c :: c in r <==> c in courses && c.id != id
    ensures forall c: Course {:trigger multiset(r)[c]} :: c.id != id ==> multiset(r)[c] == multiset(courses)[c]
  {
    Filter(courses, (c: Course) => c.id != id)
  }

  /** The timetable rows that do not belong to course `id`: what the cascade leaves. */
  function SlotsNotOf(slots: seq<Slot>, id: CourseId): (r: seq<Slot>)
    ensures forall s :: s in r <==> s in slots && s.info.course != id
    ensures forall s: Slot {:trigger multiset(r)[s]} :: s.info.course != id ==> multiset(r)[s] == multiset(slots)[s]
  {
    Filter(slots, (s: Slot) => s.info.course != id)
  }

  /** The timetable rows other than `id`. */
  function OtherSlots(slots: seq<Slot>, id: SlotId): (r: seq<Slot>)
    ensures forall s :: s in r <==> s in slots && s.id != id
    ensures forall s: Slot {:trigger multiset(r)[s]} :: s.id != id ==> multiset(r)[s] == multiset(slots)[s]
  {
    Filter(slots, (s: Slot) => s.id != id)
  }

  /** Deleting a course and its timetable rows keeps both tables' invariants. */
  lemma {:induction false} CascadeKeepsTables(courses: seq<Course>, slots: seq<Slot>, nextCourse: CourseId,
                                              nextSlot: SlotId, id: CourseId)
    requires CourseTable(courses, nextCourse) && SlotTable(slots, nextSlot, courses)
    ensures CourseTable(OtherCourses(courses, id), nextCourse)
    ensures SlotTable(SlotsNotOf(slots, id), nextSlot, OtherCourses(courses, id))
  {
    FilterKeysDistinct(courses, (c: Course) => c.id != id, CourseIdOf);
    FilterKeysDistinct(courses, (c: Course) => c.id != id, CodeOf);
    FilterKeysDistinct(slots, (s: Slot) => s.info.course != id, SlotIdOf);
    var rest := OtherCourses(courses, id);
    forall s | s in SlotsNotOf(slots, id) ensures HasCourse(rest, s.info.course) {
      var c :| c in courses && c.id == s.info.course;
      assert c in rest;
    }
  }

  lemma ReplaceKeepsKeys<T, K>(s: seq<T>, i: nat, x: T, key: T -> K)
    requires i < |s| && KeysDistinct(s, key)
    requires forall j :: 0 <= j < |s| && j != i ==> key(s[j]) != key(x)
    ensures KeysDistinct(s[i := x], key)
  {
  }

  lemma AppendKeepsKeys<T, K>(s: seq<T>, x: T, key: T -> K)
    requires KeysDistinct(s, key)
    requires forall j :: 0 <= j < |s| ==> key(s[j]) != key(x)
    ensures KeysDistinct(s + [x], key)
  {
  }

  // ---------------------------------------------------------------------------
  // Orderings
  // ---------------------------------------------------------------------------

  /** order_by('code') */
  predicate ByCode(a: Course, b: Course) {
    StrLe(a.info.code, b.info.code)
  }

  /** order_by('day_of_week', 'start_time'): the day compared as text, then the start time. */
  predicate ByDayTime(a: Slot, b: Slot) {
    || StrLt(a.info.dayOfWeek, b.info.dayOfWeek)
    || (a.info.dayOfWeek == b.info.dayOfWeek && a.info.startTime <= b.info.startTime)
  }

  /** The code of course `id`, or "" when there is none. */
  function CourseCode(courses: seq<Course>, id: CourseId): (code: string)
    ensures forall c :: c in courses && c.id == id && KeysDistinct(courses, CourseIdOf) ==> code == c.info.code
  {
    if courses == [] then ""
    else if courses[0].id == id then courses[0].info.code
    else
      assert forall c :: c in courses[1..] ==> c in courses;
      CourseCode(courses[1..], id)
  }

  /** order_by('course__code', 'day_of_week', 'start_time') */
  function ByCodeDayTime(courses: seq<Course>): (Slot, Slot) -> bool {
    (a: Slot, b: Slot) =>
      || StrLt(CourseCode(courses, a.info.course), CourseCode(courses, b.info.course))
      || (CourseCode(courses, a.info.course) == CourseCode(courses, b.info.course) && ByDayTime(a, b))
  }

  lemma ByCodeOrders()
    ensures TotalPreorder(ByCode)
  {
    forall a: Course, b: Course ensures ByCode(a, b) || ByCode(b, a) {
      StrLeTotal(a.info.code, b.info.code);
    }
    forall a: Course, b: Course, c: Course | ByCode(a, b) && ByCode(b, c) ensures ByCode(a, c) {
      StrLeTransitive(a.info.code, b.info.code, c.info.code);
    }
  }

  lemma ByDayTimeOrders()
    ensures TotalPreorder(ByDayTime)
  {
    forall a: Slot, b: Slot ensures ByDayTime(a, b) || ByDayTime(b, a) {
      if a.info.dayOfWeek != b.info.dayOfWeek {
        StrLtConnected(a.info.dayOfWeek, b.info.dayOfWeek);
      }
    }
    forall a: Slot, b: Slot, c: Slot | ByDayTime(a, b) && ByDayTime(b, c) ensures ByDayTime(a, c) {
      if StrLt(a.info.dayOfWeek, b.info.dayOfWeek) {
        if b.info.dayOfWeek != c.info.dayOfWeek {
          StrLtTransitive(a.info.dayOfWeek, b.info.dayOfWeek, c.info.dayOfWeek);
        }
      } else if StrLt(b.info.dayOfWeek, c.info.dayOfWeek) {
        assert a.info.dayOfWeek == b.info.dayOfWeek;
      }
    }
  }

  lemma ByCodeDayTimeOrders(courses: seq<Course>)
    ensures TotalPreorder(ByCodeDayTime(courses))
  {
    var le := ByCodeDayTime(courses);
    ByDayTimeOrders();
    forall a: Slot, b: Slot ensures le(a, b) || le(b, a) {
      var ka, kb := CourseCode(courses, a.info.course), CourseCode(courses, b.info.course);
      if ka != kb {
        StrLtConnected(ka, kb);
      }
    }
    forall a: Slot, b: Slot, c: Slot | le(a, b) && le(b, c) ensures le(a, c) {
      var ka, kb, kc := CourseCode(courses, a.info.course), CourseCode(courses, b.info.course),
                        CourseCode(courses, c.info.course);
      if StrLt(ka, kb) {
        if kb != kc {
          StrLtTransitive(ka, kb, kc);
        }
      } else if StrLt(kb, kc) {
        assert ka == kb;
      }
    }
  }

  // ---------------------------------------------------------------------------
  // The tables
  // ---------------------------------------------------------------------------

  class Catalog {
    var courses: seq<Course>
    var slots: seq<Slot>
    var nextCourseId: CourseId
    var nextSlotId: SlotId

    ghost predicate Valid()
      reads this
    {
      CourseTable(courses, nextCourseId) && SlotTable(slots, nextSlotId, courses)
    }

    constructor ()
      ensures Valid()
      ensures courses == [] && slots == []
    {
      courses, slots, nextCourseId, nextSlotId := [], [], 0, 0;
    }

    /** Course creation: validate the body, then insert the row under a fresh id. */
    method AddCourse(info: CourseInfo) returns (r: Outcome<Course>)
      requires Valid()
      modifies this
      ensures Valid() && slots == old(slots)
      ensures r.Rejected? || r.Done?
      ensures r.Rejected? <==> CourseErrors(info, CodeTaken(old(courses), info.code, old(nextCourseId))).Keys != {}
      ensures r.Rejected? ==>
        r.errors == CourseErrors(info, CodeTaken(old(courses), info.code, old(nextCourseId))) && courses == old(courses)
      ensures r.Done? ==>
        && !HasCourse(old(courses), r.value.id)
        && r.value.info == info
        && courses == old(courses) + [r.value]
    {
      var errors := CourseErrors(info, CodeTaken(courses, info.code, nextCourseId));
      if errors.Keys != {} {
        return Rejected(errors);
      }
      var course := Course(nextCourseId, info);
      AppendKeepsKeys(courses, course, CourseIdOf);
      AppendKeepsKeys(courses, course, CodeOf);
      courses := courses + [course];
      nextCourseId := nextCourseId + 1;
      r := Done(course);
    }

    /** Course update: the row must exist, the body must validate (its code may repeat
        only its own), then the row's columns are replaced in place. */
    method UpdateCourse(id: CourseId, info: CourseInfo) returns (r: Outcome<Course>)
      requires Valid()
      modifies this
      ensures Valid() && slots == old(slots)
      ensures r != Forbidden
      ensures !r.Done? ==> courses == old(courses)
      ensures !HasCourse(old(courses), id) <==> r == NotFound
      ensures HasCourse(old(courses), id) ==>
        (r.Rejected? <==> CourseErrors(info, CodeTaken(old(courses), info.code, id)).Keys != {})
      ensures r.Rejected? ==> r.errors == CourseErrors(info, CodeTaken(old(courses), info.code, id))
      ensures r.Done? ==>
        && r.value == Course(id, info)
        && |courses| == |old(courses)|
        && forall i :: 0 <= i < |courses| ==>
             courses[i] == if old(courses)[i].id == id then r.value else old(courses)[i]
    {
      if !HasCourse(courses, id) {
        return NotFound;
      }
      var errors := CourseErrors(info, CodeTaken(courses, info.code, id));
      if errors.Keys != {} {
        return Rejected(errors);
      }
      var before := courses;
      var i :| 0 <= i < |courses| && courses[i].id == id;
      var course := Course(id, info);
      forall j | 0 <= j < |courses| && j != i ensures courses[j].info.code != info.code {
        assert courses[j] in courses;
      }
      ReplaceKeepsKeys(courses, i, course, CourseIdOf);
      ReplaceKeepsKeys(courses, i, course, CodeOf);
      courses := courses[i := course];
      forall s | s in slots ensures HasCourse(courses, s.info.course) {
        var c :| c in before && c.id == s.info.course;
        var k :| 0 <= k < |before| && before[k] == c;
        assert courses[k].id == c.id;
      }
      r := Done(course);
    }

    /** Course deletion: the row goes, and with it every timetable row naming it. */
    method DeleteCourse(id: CourseId) returns (found: bool)
      requires Valid()
      modifies this
      ensures Valid()
      ensures found <==> HasCourse(old(courses), id)
      ensures courses == OtherCourses(old(courses), id)
      ensures slots == SlotsNotOf(old(slots), id)
    {
      found := HasCourse(courses, id);
      CascadeKeepsTables(courses, slots, nextCourseId, nextSlotId, id);
      courses := OtherCourses(courses, id);
      slots := SlotsNotOf(slots, id);
    }

    /** Timetable creation: validate the body (its course must exist), then insert. */
    method AddSlot(info: SlotInfo) returns (r: Outcome<Slot>)
      requires Valid()
      modifies this
      ensures Valid() && courses == old(courses)
      ensures r.Rejected? || r.Done?
      ensures r.Rejected? <==> SlotErrors(info, HasCourse(old(courses), info.course)).Keys != {}
      ensures r.Rejected? ==> r.errors == SlotErrors(info, HasCourse(old(courses), info.course)) && slots == old(slots)
      ensures r.Done? ==>
        && !HasSlot(old(slots), r.value.id)
        && r.value.info == info
        && slots == old(slots) + [r.value]
    {
      var errors := SlotErrors(info, HasCourse(courses, info.course));
      if errors.Keys != {} {
        return Rejected(errors);
      }
      var slot := Slot(nextSlotId, info);
      AppendKeepsKeys(slots, slot, SlotIdOf);
      slots := slots + [slot];
      nextSlotId := nextSlotId + 1;
      r := Done(slot);
    }

    /** Timetable update: the row must exist and the body validate; then it is replaced. */
    method UpdateSlot(id: SlotId, info: SlotInfo) returns (r: Outcome<Slot>)
      requires Valid()
      modifies this
      ensures Valid() && courses == old(courses)
      ensures r != Forbidden
      ensures !r.Done? ==> slots == old(slots)
      ensures !HasSlot(old(slots), id) <==> r == NotFound
      ensures HasSlot(old(slots), id) ==>
        (r.Rejected? <==> SlotErrors(info, HasCourse(old(courses), info.course)).Keys != {})
      ensures r.Rejected? ==> r.errors == SlotErrors(info, HasCourse(old(courses), info.course))
      ensures r.Done? ==>
        && r.value == Slot(id, info)
        && |slots| == |old(slots)|
        && forall i :: 0 <= i < |slots| ==>
             slots[i] == if old(slots)[i].id == id then r.value else old(slots)[i]
    {
      if !HasSlot(slots, id) {
        return NotFound;
      }
      var errors := SlotErrors(info, HasCourse(courses, info.course));
      if errors.Keys != {} {
        return Rejected(errors);
      }
      var i :| 0 <= i < |slots| && slots[i].id == id;
      var slot := Slot(id, info);
      ReplaceKeepsKeys(slots, i, slot, SlotIdOf);
      slots := slots[i := slot];
      r := Done(slot);
    }

    /** Timetable deletion: that row goes and nothing else. */
    method DeleteSlot(id: SlotId) returns (found: bool)
      requires Valid()
      modifies this
      ensures Valid() && courses == old(courses)
      ensures found <==> HasSlot(old(slots), id)
      ensures slots == OtherSlots(old(slots), id)
    {
      found := HasSlot(slots, id);
      FilterKeysDistinct(slots, (s: Slot) => s.id != id, SlotIdOf);
      slots := OtherSlots(slots, id);
    }
  }
}
