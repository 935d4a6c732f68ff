/** The permission of admin_panel/permissions.py. */
module AdminPermissions {
  import opened AccountModel
  import opened AccountPermissions

  predicate IsAdminOrSuperAdmin(req: Requester) {
    req.IsAuthenticated() && req.role in [Admin, SuperAdmin]
  }

  lemma AdmitsAdmin(id: UserId)
    ensures IsAdminOrSuperAdmin(Member(id, Admin))
  {
  }

  lemma AdmitsSuperAdmin(id: UserId)
    ensures IsAdminOrSuperAdmin(Member(id, SuperAdmin))
  {
  }

  lemma RejectsStudentAndAnonymous(id: UserId)
    ensures !IsAdminOrSuperAdmin(Member(id, Student))
    ensures !IsAdminOrSuperAdmin(Anonymous)
  {
  }

  /** The two admin permissions are the same predicate. */
  lemma AgreesWithIsAdmin(req: Requester)
    ensures IsAdminOrSuperAdmin(req) == IsAdmin(req)
  {
  }
}
