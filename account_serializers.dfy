/** The validation halves of the serializers in accounts/serializers.py. Each validator is a
    pure check over the submitted fields; a rejection is a map from field name to its
    messages, as the framework reports it. Field-level checks (uniqueness of the email,
    Django's password validators, the role choice) run before `validate`, which is reached
    only when all of them pass. */
module AccountSerializers {
  import opened Wrappers
  import opened Text
  import opened AccountModel
  import opened FieldErrors

  const PasswordMismatchMessage := "Passwords do not match."
  const RegisterEmailMessage := "Students must register with a valid TTU email (e.g., bcict22153@ttu.edu.gh)."
  const ManagedEmailMessage := "Students must use a valid TTU email (e.g., bcict22153@ttu.edu.gh)."
  const IndexRequiredMessage := "Index number is required for student accounts."
  const StudentPositionMessage := "Students should not have a position field."
  const PositionRequiredMessage := "Position is required for admin accounts."
  const AdminIndexMessage := "Admins should not have an index number."
  /** The framework's message for the unique `email` column. */
  const EmailTakenMessage := UniqueMessage("user", "email")

  /** Python's `not value` for an optional text field: missing or empty. */
  predicate Blank(value: Option<string>) {
    value.None? || value.value == ""
  }

  /** The field-level error of the unique `email` column. */
  function EmailErrors(emailTaken: bool): (e: Errors)
    ensures e.Keys == if emailTaken then {"email"} else {}
  {
    if emailTaken then map["email" := [EmailTakenMessage]] else map[]
  }

  /** The field-level error Django's password validators raise on the named field. */
  function PasswordErrors(field: string, problems: seq<string>): (e: Errors)
    ensures e.Keys == if problems != [] then {field} else {}
  {
    if problems != [] then map[field := problems] else map[]
  }

  // ---------------------------------------------------------------------------
  // StudentRegistrationSerializer
  // ---------------------------------------------------------------------------

  datatype RegistrationAttrs = RegistrationAttrs(
    fullName: string, indexNumber: string, email: string, password: string, confirmPassword: string)

  /** StudentRegistrationSerializer.validate: the passwords must match, then the email
      must carry the TTU suffix; accepted attributes come back unchanged. */
  function ValidateRegistration(a: RegistrationAttrs): (r: Result<RegistrationAttrs, Errors>)
    ensures r.Success? <==> a.password == a.confirmPassword && EndsWith(a.email, TtuSuffix)
    ensures r.Success? ==> r.value == a
    ensures r.Failure? ==> "password" in r.error || "email" in r.error
    ensures a.password != a.confirmPassword ==> r == Failure(map["password" := [PasswordMismatchMessage]])
    ensures a.password == a.confirmPassword && !EndsWith(a.email, TtuSuffix) ==>
              r == Failure(map["email" := [RegisterEmailMessage]])
  {
    if a.password != a.confirmPassword then Failure(map["password" := [PasswordMismatchMessage]])
    else if !EndsWith(a.email, TtuSuffix) then Failure(map["email" := [RegisterEmailMessage]])
    else Success(a)
  }

  /** The whole of the serializer's validation: field-level errors first, then `validate`. */
  function CheckRegistration(a: RegistrationAttrs, emailTaken: bool, passwordProblems: seq<string>)
    : (r: Result<RegistrationAttrs, Errors>)
    ensures r.Success? <==> !emailTaken && passwordProblems == [] && ValidateRegistration(a).Success?
    ensures r.Success? ==> r.value == a
    ensures r.Failure? ==> |r.error| > 0
  {
    var fieldErrors := EmailErrors(emailTaken) + PasswordErrors("password", passwordProblems);
    if fieldErrors != map[] then Failure(fieldErrors) else ValidateRegistration(a)
  }

  /** Mismatched passwords always fail the registration. Unless the field-level checks
      already failed (then `validate` does not run and only their fields are reported), the
      mismatch is reported under `password` alone, before any complaint about the email. */
  lemma RegistrationPasswordFirst(a: RegistrationAttrs, emailTaken: bool, passwordProblems: seq<string>)
    requires a.password != a.confirmPassword
    ensures CheckRegistration(a, emailTaken, passwordProblems).Failure?
    ensures !emailTaken ==> "password" in CheckRegistration(a, emailTaken, passwordProblems).error
    ensures !emailTaken && passwordProblems == [] ==>
              CheckRegistration(a, emailTaken, passwordProblems).error.Keys == {"password"}
  {
  }

  /** With a taken email, the field-level failure hides a password mismatch entirely. */
  lemma TakenEmailHidesMismatch(a: RegistrationAttrs)
    requires a.password != a.confirmPassword
    ensures CheckRegistration(a, true, []) == Failure(map["email" := [EmailTakenMessage]])
  {
    assert EmailErrors(true) + PasswordErrors("password", []) == map["email" := [EmailTakenMessage]];
  }

  /** A registration that passes validation satisfies the manager's guard for the student
      it creates, under any normalisation that keeps the TTU suffix. */
  lemma RegistrationMeetsManagerGuard(a: RegistrationAttrs, normalize: string -> string)
    requires ValidateRegistration(a).Success?
    requires KeepsTtuSuffix(normalize)
    ensures CreateUserGuard(a.email, normalize(a.email), Student).None?
  {
    assert |TtuSuffix| > 0;
    assert EndsWith(normalize(a.email), TtuSuffix);
  }

  // ---------------------------------------------------------------------------
  // SuperAdminUserSerializer
  // ---------------------------------------------------------------------------

  /** The submitted fields; `role` is the raw choice text, index number and position are optional. */
  datatype ManagedAttrs = ManagedAttrs(
    fullName: string, email: string, role: string, indexNumber: Option<string>, position: Option<string>)

  /** The same fields once the role choice has been accepted. */
  datatype ManagedData = ManagedData(
    fullName: string, email: string, role: Role, indexNumber: Option<string>, position: Option<string>)

  /** The role ChoiceField: only STUDENT and ADMIN are offered. */
  function ParseManagedRole(s: string): (r: Option<Role>)
    ensures r.Some? <==> s == "STUDENT" || s == "ADMIN"
    ensures r.Some? ==> RoleValue(r.value) == s && r.value != SuperAdmin
  {
    if s == "STUDENT" then Some(Student) else if s == "ADMIN" then Some(Admin) else None
  }

  function ChoiceMessage(s: string): string {
    "\"" + s + "\" is not a valid choice."
  }

  /** The constraints of an account's shape: a student has a TTU email, an index number
      and no position; an admin has a position and no index number. */
  predicate WellShaped(role: Role, email: string, indexNumber: Option<string>, position: Option<string>) {
    match role
    case Student => !Blank(indexNumber) && EndsWith(email, TtuSuffix) && Blank(position)
    case Admin => !Blank(position) && Blank(indexNumber)
    case SuperAdmin => true
  }

  /** SuperAdminUserSerializer.validate. A student is checked for an index number, then the
      email, then the absence of a position; an admin for a position, then the absence of an
      index number. The email of an admin is not checked. */
  function ValidateManaged(d: ManagedData): (r: Result<ManagedData, Errors>)
    ensures r.Success? <==> WellShaped(d.role, d.email, d.indexNumber, d.position)
    ensures r.Success? ==> r.value == d
    ensures r.Failure? ==> |r.error| == 1
  {
    match d.role
    case Student =>
      if Blank(d.indexNumber) then Failure(map["index_number" := [IndexRequiredMessage]])
      else if !EndsWith(d.email, TtuSuffix) then Failure(map["email" := [ManagedEmailMessage]])
      else if !Blank(d.position) then Failure(map["position" := [StudentPositionMessage]])
      else Success(d)
    case Admin =>
      if Blank(d.position) then Failure(map["position" := [PositionRequiredMessage]])
      else if !Blank(d.indexNumber) then Failure(map["index_number" := [AdminIndexMessage]])
      else Success(d)
    case SuperAdmin => Success(d)
  }

  /** The order in which a student's fields are reported. */
  lemma ManagedStudentOrder(d: ManagedData)
    requires d.role == Student
    ensures Blank(d.indexNumber) ==> ValidateManaged(d) == Failure(map["index_number" := [IndexRequiredMessage]])
    ensures !Blank(d.indexNumber) && !EndsWith(d.email, TtuSuffix) ==>
              ValidateManaged(d) == Failure(map["email" := [ManagedEmailMessage]])
    ensures !Blank(d.indexNumber) && EndsWith(d.email, TtuSuffix) && !Blank(d.position) ==>
              ValidateManaged(d) == Failure(map["position" := [StudentPositionMessage]])
  {
  }

  /** The order in which an admin's fields are reported; the email plays no part. */
  lemma ManagedAdminOrder(d: ManagedData)
    requires d.role == Admin
    ensures Blank(d.position) ==> ValidateManaged(d) == Failure(map["position" := [PositionRequiredMessage]])
    ensures !Blank(d.position) && !Blank(d.indexNumber) ==>
              ValidateManaged(d) == Failure(map["index_number" := [AdminIndexMessage]])
    ensures forall e :: ValidateManaged(d.(email := e)).Success? == ValidateManaged(d).Success?
  {
  }

  /** The whole of the serializer's validation: the role choice and the email's uniqueness
      at field level, then `validate`. */
  function CheckManaged(a: ManagedAttrs, emailTaken: bool): (r: Result<ManagedData, Errors>)
    ensures r.Success? ==> r.value.role != SuperAdmin
    ensures r.Success? <==>
      !emailTaken && ParseManagedRole(a.role).Some? &&
      WellShaped(ParseManagedRole(a.role).value, a.email, a.indexNumber, a.position)
    ensures r.Success? ==> RoleValue(r.value.role) == a.role
    ensures r.Success? ==> r.value == ManagedData(a.fullName, a.email, r.value.role, a.indexNumber, a.position)
    ensures r.Failure? ==> |r.error| > 0
  {
    match ParseManagedRole(a.role)
    case None => Failure(map["role" := [ChoiceMessage(a.role)]] + EmailErrors(emailTaken))
    case Some(role) =>
      if emailTaken then Failure(EmailErrors(emailTaken))
      else ValidateManaged(ManagedData(a.fullName, a.email, role, a.indexNumber, a.position))
  }

  /** An accepted managed body passes create_user's guard exactly when an email was given:
      a student's email already carries the TTU suffix, and an admin's is not checked. */
  lemma ManagedMeetsManagerGuard(a: ManagedAttrs, emailTaken: bool, normalize: string -> string)
    requires CheckManaged(a, emailTaken).Success?
    requires KeepsTtuSuffix(normalize)
    ensures CreateUserGuard(a.email, normalize(a.email), CheckManaged(a, emailTaken).value.role).None? <==> a.email != ""
  {
    if CheckManaged(a, emailTaken).value.role == Student {
      assert EndsWith(normalize(a.email), TtuSuffix);
    }
  }

  /** A SUPERADMIN can never come out of managed creation: asking for it fails under `role`. */
  lemma ManagedNeverSuperAdmin(a: ManagedAttrs, emailTaken: bool)
    requires a.role == "SUPERADMIN"
    ensures CheckManaged(a, emailTaken).Failure?
    ensures "role" in CheckManaged(a, emailTaken).error
  {
  }

  // ---------------------------------------------------------------------------
  // PasswordResetConfirmSerializer
  // ---------------------------------------------------------------------------

  datatype ResetConfirmAttrs = ResetConfirmAttrs(token: Token, newPassword: string, confirmPassword: string)

  /** Password validators on `new_password` first, then `validate`'s comparison, reported
      under `password`. */
  function CheckResetConfirm(a: ResetConfirmAttrs, passwordProblems: seq<string>): (r: Result<ResetConfirmAttrs, Errors>)
    ensures r.Success? <==> passwordProblems == [] && a.newPassword == a.confirmPassword
    ensures r.Success? ==> r.value == a
    ensures passwordProblems == [] && a.newPassword != a.confirmPassword ==>
              r == Failure(map["password" := [PasswordMismatchMessage]])
    ensures passwordProblems != [] ==> r == Failure(map["new_password" := passwordProblems])
  {
    if passwordProblems != [] then Failure(map["new_password" := passwordProblems])
    else if a.newPassword != a.confirmPassword then Failure(map["password" := [PasswordMismatchMessage]])
    else Success(a)
  }
}
