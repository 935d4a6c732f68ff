/** The account record and the guards of its manager (accounts/models.py). The record
    carries the later field set the serializers and views use (full name, index number,
    position, verification flag and token); the manager contributes its guard logic. */
module AccountModel {
  import opened Wrappers
  import opened Text

  /** The email suffix every student account must carry. */
  const TtuSuffix := "@ttu.edu.gh"

  /** ROLE_CHOICES. */
  datatype Role = Student | Admin | SuperAdmin

  /** The default of the `role` column and of create_user's `role` parameter. */
  const DefaultRole := Student

  /** The value stored in the `role` column. */
  function RoleValue(r: Role): string {
    match r
    case Student => "STUDENT"
    case Admin => "ADMIN"
    case SuperAdmin => "SUPERADMIN"
  }

  type UserId = nat

  /** An opaque uuid4 value in its text form. */
  type Token = string

  /** What `set_password` leaves in the password column: a credential that accepts
      exactly one raw password (hashing is abstracted away), or the unusable marker
      that `set_password(None)` stores. */
  datatype Credential = Usable(secret: string) | Unusable

  function SetPassword(password: Option<string>): Credential {
    match password
    case Some(p) => Usable(p)
    case None => Unusable
  }

  /** `check_password`. */
  predicate CheckPassword(c: Credential, raw: string) {
    c.Usable? && c.secret == raw
  }

  /** After `set_password(p)` exactly `p` is accepted; after `set_password(None)` nothing is. */
  lemma SetPasswordAccepts(password: Option<string>, raw: string)
    ensures CheckPassword(SetPassword(password), raw) <==> password == Some(raw)
  {
  }

  datatype User = User(
    email: string,
    fullName: string,
    role: Role,
    indexNumber: Option<string>,
    position: Option<string>,
    isActive: bool,
    isStaff: bool,
    isSuperuser: bool,
    isVerified: bool,
    verificationToken: Token,
    credential: Credential)

  /** The keyword arguments create_user passes on to the model (`**extra_fields`);
      `None` means the key was not supplied and the column default applies. */
  datatype ExtraFields = ExtraFields(
    isActive: Option<bool>,
    isStaff: Option<bool>,
    isSuperuser: Option<bool>,
    indexNumber: Option<string>,
    position: Option<string>)

  const NoExtraFields := ExtraFields(None, None, None, None, None)

  /** The row create_user saves: the supplied fields over the column defaults
      (is_active true, is_staff false, is_superuser false, is_verified false). */
  function NewUser(email: string, fullName: string, role: Role, password: Option<string>,
                   extra: ExtraFields, token: Token): User
  {
    User(email, fullName, role, extra.indexNumber, extra.position,
         extra.isActive.GetOr(true), extra.isStaff.GetOr(false), extra.isSuperuser.GetOr(false),
         false, token, SetPassword(password))
  }

  /** A row saved without explicit flags is active, not staff, not superuser and not verified. */
  lemma NewUserDefaults(email: string, fullName: string, role: Role, password: Option<string>, token: Token)
    ensures var u := NewUser(email, fullName, role, password, NoExtraFields, token);
      u.isActive && !u.isStaff && !u.isSuperuser && !u.isVerified && u.role == role
  {
  }

  datatype CreateUserError =
    | EmailRequired        // ValueError
    | StudentEmailNotTtu   // ValidationError
    | EmailTaken           // the database's unique constraint on `email`

  /** What normalize_email guarantees for the TTU domain: it lower-cases only the part
      after the last `@`, and `ttu.edu.gh` is already lower case, so the suffix survives. */
  ghost predicate KeepsTtuSuffix(normalize: string -> string) {
    forall e :: EndsWith(e, TtuSuffix) ==> EndsWith(normalize(e), TtuSuffix)
  }

  /** The checks create_user makes before building the row: the raw email must be
      non-empty, and a student's normalised email must end in the TTU suffix. */
  function CreateUserGuard(email: string, normalized: string, role: Role): (r: Option<CreateUserError>)
    ensures r == Some(EmailRequired) <==> email == ""
    ensures r == Some(StudentEmailNotTtu) <==> email != "" && role == Student && !EndsWith(normalized, TtuSuffix)
    ensures r.None? <==> email != "" && (role == Student ==> EndsWith(normalized, TtuSuffix))
  {
    if email == "" then Some(EmailRequired)
    else if role == Student && !EndsWith(normalized, TtuSuffix) then Some(StudentEmailNotTtu)
    else None
  }

  /** Only students are held to the suffix: for any other role the guard looks at
      nothing but whether an email was given. */
  lemma OnlyStudentsNeedTtuEmail(email: string, normalized: string, role: Role)
    requires role != Student
    ensures CreateUserGuard(email, normalized, role) == if email == "" then Some(EmailRequired) else None
  {
  }

  const CleanMessage := "Students must use a valid TTU email (e.g., bcict22153@ttu.edu.gh)"

  /** User.clean: the validation error it raises, if any. */
  function Clean(u: User): (r: Option<string>)
    ensures r.None? <==> (u.role == Student ==> EndsWith(u.email, TtuSuffix))
    ensures r.Some? ==> r.value == CleanMessage
  {
    if u.role == Student && !EndsWith(u.email, TtuSuffix) then Some(CleanMessage) else None
  }

  /** Every row create_user lets through passes clean(). */
  lemma GuardedRowIsClean(email: string, normalized: string, fullName: string, role: Role,
                          password: Option<string>, extra: ExtraFields, token: Token)
    requires CreateUserGuard(email, normalized, role).None?
    ensures Clean(NewUser(normalized, fullName, role, password, extra, token)).None?
  {
  }
}
