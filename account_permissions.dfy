/** The role permissions of accounts/permissions.py, as predicates over the requesting user. */
module AccountPermissions {
  import opened AccountModel

  /** `request.user` as a permission sees it: the anonymous user, or an authenticated account. */
  datatype Requester = Anonymous | Member(id: UserId, role: Role) {
    predicate IsAuthenticated() {
      Member?
    }
  }

  /** DRF's SAFE_METHODS. */
  const SafeMethods := ["GET", "HEAD", "OPTIONS"]

  /** rest_framework.permissions.IsAuthenticated. */
  predicate IsAuthenticated(req: Requester) {
    req.IsAuthenticated()
  }

  predicate IsSuperAdmin(req: Requester) {
    req.IsAuthenticated() && req.role == SuperAdmin
  }

  predicate IsAdmin(req: Requester) {
    req.IsAuthenticated() && req.role in [Admin, SuperAdmin]
  }

  predicate IsStudent(req: Requester) {
    req.IsAuthenticated() && req.role == Student
  }

  /** Admits a request by its HTTP method alone; the user is not consulted. */
  predicate ReadOnly(req: Requester, verb: string) {
    verb in SafeMethods
  }

  /** The authenticated roles each predicate admits, stated over the closed set of roles. */
  lemma AdmittedRoles(id: UserId)
    ensures forall r :: IsSuperAdmin(Member(id, r)) <==> r == SuperAdmin
    ensures forall r :: IsAdmin(Member(id, r)) <==> r != Student
    ensures forall r :: IsStudent(Member(id, r)) <==> r == Student
  {
  }

  lemma AnonymousFailsEveryRole()
    ensures !IsSuperAdmin(Anonymous) && !IsAdmin(Anonymous) && !IsStudent(Anonymous)
  {
  }

  lemma SuperAdminIsAdmin(req: Requester)
    ensures IsSuperAdmin(req) ==> IsAdmin(req)
  {
  }

  /** An authenticated user is a student or an admin, never both. */
  lemma StudentOrAdmin(req: Requester)
    ensures !(IsStudent(req) && IsAdmin(req))
    ensures IsAuthenticated(req) ==> IsStudent(req) || IsAdmin(req)
  {
  }

  /** Each role predicate already demands authentication, so pairing it with IsAuthenticated
      (as every view does) changes nothing. */
  lemma RoleImpliesAuthenticated(req: Requester)
    ensures IsSuperAdmin(req) ==> IsAuthenticated(req)
    ensures IsAdmin(req) ==> IsAuthenticated(req)
    ensures IsStudent(req) ==> IsAuthenticated(req)
  {
  }

  lemma ReadOnlyIgnoresUser(a: Requester, b: Requester, verb: string)
    ensures ReadOnly(a, verb) == ReadOnly(b, verb)
    ensures ReadOnly(a, verb) <==> verb == "GET" || verb == "HEAD" || verb == "OPTIONS"
  {
  }
}
