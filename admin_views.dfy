/** The course and timetable endpoints of admin_panel/views.py. Every one of them requires
    an authenticated admin or super admin; the list views are ordered projections and the
    detail views create, read, update and delete rows of the catalog. */
module AdminViews {
  import opened Wrappers
  import opened Sequences
  import opened AccountModel
  import opened AccountPermissions
  import opened AdminPermissions
  import opened Catalog
  import opened Enrolment
  import opened StudentViews

  /** The permissions of every view here: IsAuthenticated and IsAdmin. */
  predicate CanAdminister(req: Requester) {
    IsAuthenticated(req) && IsAdmin(req)
  }

  /** The gate admits exactly admins and super admins, so a student is always refused. */
  lemma OnlyAdminsAdminister(req: Requester)
    ensures CanAdminister(req) <==> IsAdminOrSuperAdmin(req)
    ensures CanAdminister(req) <==> req.Member? && req.role != Student
  {
  }

  /** The course with id `id`, if any (get_object_or_404's lookup). */
  function FindCourse(courses: seq<Course>, id: CourseId): (r: Option<Course>)
    ensures r.Some? <==> HasCourse(courses, id)
    ensures r.Some? ==> r.value in courses && r.value.id == id
  {
    if courses == [] then None
    else if courses[0].id == id then Some(courses[0])
    else
      assert courses == [courses[0]] + courses[1..];
      FindCourse(courses[1..], id)
  }

  /** The timetable row with id `id`, if any. */
  function FindSlot(slots: seq<Slot>, id: SlotId): (r: Option<Slot>)
    ensures r.Some? <==> HasSlot(slots, id)
    ensures r.Some? ==> r.value in slots && r.value.id == id
  {
    if slots == [] then None
    else if slots[0].id == id then Some(slots[0])
    else
      assert slots == [slots[0]] + slots[1..];
      FindSlot(slots[1..], id)
  }

  /** CourseListCreateView's list: every course, ordered by code. */
  function CourseList(req: Requester, courses: seq<Course>): (r: Listing<Course>)
    ensures r.Listed? <==> CanAdminister(req)
    ensures r.Listed? ==> multiset(r.items) == multiset(courses) && SortedBy(r.items, ByCode)
  {
    if !CanAdminister(req) then Denied
    else
      ByCodeOrders();
      Listed(SortBy(courses, ByCode))
  }

  /** TimetableListCreateView's list: every row, ordered by course code, day (as text), start. */
  function TimetableList(req: Requester, courses: seq<Course>, slots: seq<Slot>): (r: Listing<Slot>)
    ensures r.Listed? <==> CanAdminister(req)
    ensures r.Listed? ==> multiset(r.items) == multiset(slots) && SortedBy(r.items, ByCodeDayTime(courses))
  {
    if !CanAdminister(req) then Denied
    else
      ByCodeDayTimeOrders(courses);
      Listed(SortBy(slots, ByCodeDayTime(courses)))
  }

  /** CourseDetailView's retrieve: the permission check, then the lookup. */
  function RetrieveCourse(req: Requester, courses: seq<Course>, id: CourseId): (r: Outcome<Course>)
    ensures !CanAdminister(req) <==> r == Forbidden
    ensures CanAdminister(req) ==> (r == NotFound <==> !HasCourse(courses, id))
    ensures r.Done? ==> r.value in courses && r.value.id == id
    ensures !r.Rejected?
  {
    if !CanAdminister(req) then Forbidden
    else
      match FindCourse(courses, id)
      case None => NotFound
      case Some(c) => Done(c)
  }

  /** TimetableDetailView's retrieve. */
  function RetrieveSlot(req: Requester, slots: seq<Slot>, id: SlotId): (r: Outcome<Slot>)
    ensures !CanAdminister(req) <==> r == Forbidden
    ensures CanAdminister(req) ==> (r == NotFound <==> !HasSlot(slots, id))
    ensures r.Done? ==> r.value in slots && r.value.id == id
    ensures !r.Rejected?
  {
    if !CanAdminister(req) then Forbidden
    else
      match FindSlot(slots, id)
      case None => NotFound
      case Some(s) => Done(s)
  }

  /** CourseListCreateView's create. */
  method CreateCourse(req: Requester, catalog: Catalog, info: CourseInfo) returns (r: Outcome<Course>)
    requires catalog.Valid()
    modifies catalog
    ensures catalog.Valid() && catalog.slots == old(catalog.slots)
    ensures !r.Done? ==> catalog.courses == old(catalog.courses)
    ensures !CanAdminister(req) <==> r == Forbidden
    ensures CanAdminister(req) ==> r.Rejected? || r.Done?
    ensures CanAdminister(req) ==>
      (r.Rejected? <==> CourseErrors(info, CodeTaken(old(catalog.courses), info.code, old(catalog.nextCourseId))).Keys != {})
    ensures r.Rejected? ==> r.errors == CourseErrors(info, CodeTaken(old(catalog.courses), info.code, old(catalog.nextCourseId)))
    ensures r.Done? ==> r.value.info == info && catalog.courses == old(catalog.courses) + [r.value]
  {
    if !CanAdminister(req) {
      return Forbidden;
    }
    r := catalog.AddCourse(info);
  }

  /** CourseDetailView's update. */
  method UpdateCourse(req: Requester, catalog: Catalog, id: CourseId, info: CourseInfo) returns (r: Outcome<Course>)
    requires catalog.Valid()
    modifies catalog
    ensures catalog.Valid() && catalog.slots == old(catalog.slots)
    ensures !r.Done? ==> catalog.courses == old(catalog.courses)
    ensures !CanAdminister(req) <==> r == Forbidden
    ensures CanAdminister(req) ==> (r == NotFound <==> !HasCourse(old(catalog.courses), id))
    ensures CanAdminister(req) && HasCourse(old(catalog.courses), id) ==>
      (r.Rejected? <==> CourseErrors(info, CodeTaken(old(catalog.courses), info.code, id)).Keys != {})
    ensures r.Rejected? ==> r.errors == CourseErrors(info, CodeTaken(old(catalog.courses), info.code, id))
    ensures r.Done? ==>
      && r.value == Course(id, info)
      && |catalog.courses| == |old(catalog.courses)|
      && forall i :: 0 <= i < |catalog.courses| ==>
           catalog.courses[i] == if old(catalog.courses)[i].id == id then r.value else old(catalog.courses)[i]
  {
    if !CanAdminister(req) {
      return Forbidden;
    }
    r := catalog.UpdateCourse(id, info);
  }

  /** CourseDetailView's destroy: the course goes, and the database's cascades take its
      timetable rows and its registrations with it. */
  method DestroyCourse(req: Requester, catalog: Catalog, registrations: RegistrationTable, id: CourseId)
    returns (r: Outcome<CourseId>)
    requires catalog.Valid() && registrations.Valid()
    modifies catalog, registrations
    ensures catalog.Valid() && registrations.Valid()
    ensures !CanAdminister(req) <==> r == Forbidden
    ensures CanAdminister(req) ==> (r == NotFound <==> !HasCourse(old(catalog.courses), id))
    ensures CanAdminister(req) && HasCourse(old(catalog.courses), id) ==> r.Done?
    ensures !r.Done? ==>
      && catalog.courses == old(catalog.courses) && catalog.slots == old(catalog.slots)
      && registrations.rows == old(registrations.rows)
    ensures r.Done? ==>
      && r.value == id
      && catalog.courses == OtherCourses(old(catalog.courses), id)
      && catalog.slots == SlotsNotOf(old(catalog.slots), id)
      && registrations.rows == WithoutCourse(old(registrations.rows), id)
  {
    if !CanAdminister(req) {
      return Forbidden;
    }
    if !HasCourse(catalog.courses, id) {
      return NotFound;
    }
    var _ := catalog.DeleteCourse(id);
    registrations.DeleteCourse(id);
    r := Done(id);
  }

  /** TimetableListCreateView's create. */
  method CreateSlot(req: Requester, catalog: Catalog, info: SlotInfo) returns (r: Outcome<Slot>)
    requires catalog.Valid()
    modifies catalog
    ensures catalog.Valid() && catalog.courses == old(catalog.courses)
    ensures !r.Done? ==> catalog.slots == old(catalog.slots)
    ensures !CanAdminister(req) <==> r == Forbidden
    ensures CanAdminister(req) ==> r.Rejected? || r.Done?
    ensures CanAdminister(req) ==>
      (r.Rejected? <==> SlotErrors(info, HasCourse(old(catalog.courses), info.course)).Keys != {})
    ensures r.Rejected? ==> r.errors == SlotErrors(info, HasCourse(old(catalog.courses), info.course))
    ensures r.Done? ==> r.value.info == info && catalog.slots == old(catalog.slots) + [r.value]
  {
    if !CanAdminister(req) {
      return Forbidden;
    }
    r := catalog.AddSlot(info);
  }

  /** TimetableDetailView's update. */
  method UpdateSlot(req: Requester, catalog: Catalog, id: SlotId, info: SlotInfo) returns (r: Outcome<Slot>)
    requires catalog.Valid()
    modifies catalog
    ensures catalog.Valid() && catalog.courses == old(catalog.courses)
    ensures !r.Done? ==> catalog.slots == old(catalog.slots)
    ensures !CanAdminister(req) <==> r == Forbidden
    ensures CanAdminister(req) ==> (r == NotFound <==> !HasSlot(old(catalog.slots), id))
    ensures CanAdminister(req) && HasSlot(old(catalog.slots), id) ==>
      (r.Rejected? <==> SlotErrors(info, HasCourse(old(catalog.courses), info.course)).Keys != {})
    ensures r.Rejected? ==> r.errors == SlotErrors(info, HasCourse(old(catalog.courses), info.course))
    ensures r.Done? ==>
      && r.value == Slot(id, info)
      && |catalog.slots| == |old(catalog.slots)|
      && forall i :: 0 <= i < |catalog.slots| ==>
           catalog.slots[i] == if old(catalog.slots)[i].id == id then r.value else old(catalog.slots)[i]
  {
    if !CanAdminister(req) {
      return Forbidden;
    }
    r := catalog.UpdateSlot(id, info);
  }

  /** TimetableDetailView's destroy: only that row goes. */
  method DestroySlot(req: Requester, catalog: Catalog, id: SlotId) returns (r: Outcome<SlotId>)
    requires catalog.Valid()
    modifies catalog
    ensures catalog.Valid() && catalog.courses == old(catalog.courses)
    ensures !CanAdminister(req) <==> r == Forbidden
    ensures CanAdminister(req) ==> (r == NotFound <==> !HasSlot(old(catalog.slots), id))
    ensures CanAdminister(req) && HasSlot(old(catalog.slots), id) ==> r.Done?
    ensures !r.Done? ==> catalog.slots == old(catalog.slots)
    ensures r.Done? ==> r.value == id && catalog.slots == OtherSlots(old(catalog.slots), id)
  {
    if !CanAdminister(req) {
      return Forbidden;
    }
    if !HasSlot(catalog.slots, id) {
      return NotFound;
    }
    var _ := catalog.DeleteSlot(id);
    r := Done(id);
  }
}
