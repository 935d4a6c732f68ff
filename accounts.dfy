/** The account lifecycle of accounts/views.py over an in-memory store: the user table and
    its manager (accounts/models.py), the password-reset table, and the `create` steps of
    the serializers (accounts/serializers.py). Library behaviour the code relies on but does
    not show (email normalisation, Django's password validators, the expiry test of a reset
    row, the sender address from the settings) is fixed per store as a constant. */
module Accounts {
  import opened Wrappers
  import opened Text
  import opened AccountModel
  import opened AccountPermissions
  import opened FieldErrors
  import opened AccountSerializers
  import opened AccountUtils

  /** A PasswordReset row: the account it belongs to and the clock reading it was made at. */
  datatype ResetRow = ResetRow(user: UserId, createdAt: int)

  /** A response: its status and the text of its single message field, or field errors (400). */
  datatype Response = Response(status: nat, text: string) | Invalid(errors: Errors)

  /** What the framework answers for a lookup that finds nothing (get_object_or_404). */
  const NotFoundDetail := "Not found."
  const AlreadyVerifiedMessage := "Account already verified."
  const VerifiedMessage := "Account verified successfully. You can now log in."
  const ResetRequestDetail := "If this email exists, a reset link will be sent."
  const TokenExpiredDetail := "Token expired."
  const ResetDoneDetail := "Password has been reset successfully."
  const LoginFailedMessage := "Invalid email or password."
  const LoginSucceededMessage := "Login successful."

  /** LoginView's answer; the session tokens it also returns are not modelled. */
  datatype LoginResult =
    | LoginOk(message: string, email: string, fullName: string, role: Role)
    | LoginFailed(error: string)

  /** Why an account was not created. */
  datatype Rejection =
    | Forbidden                          // the view's permission check failed
    | Rejected(errors: Errors)           // the serializer's validation failed
    | Refused(error: CreateUserError)    // create_user raised

  predicate EmailInUse(users: map<UserId, User>, email: string) {
    exists id :: id in users && users[id].email == email
  }

  predicate TokenInUse(users: map<UserId, User>, token: Token) {
    exists id :: id in users && users[id].verificationToken == token
  }

  /** The `email` column is unique. */
  ghost predicate UniqueEmails(users: map<UserId, User>) {
    forall a, b :: a in users && b in users && users[a].email == users[b].email ==> a == b
  }

  /** Verification tokens are unique, so a token names at most one account. */
  ghost predicate UniqueTokens(users: map<UserId, User>) {
    forall a, b :: a in users && b in users && users[a].verificationToken == users[b].verificationToken ==> a == b
  }

  ghost predicate StudentsHaveTtuEmail(users: map<UserId, User>) {
    forall id :: id in users && users[id].role == Student ==> EndsWith(users[id].email, TtuSuffix)
  }

  /** Why create_user would refuse to save, given the table it saves into. */
  function CreateUserFailure(users: map<UserId, User>, email: string, normalized: string, role: Role)
    : (r: Option<CreateUserError>)
    ensures r.None? <==> CreateUserGuard(email, normalized, role).None? && !EmailInUse(users, normalized)
  {
    var guard := CreateUserGuard(email, normalized, role);
    if guard.Some? then guard
    else if EmailInUse(users, normalized) then Some(EmailTaken)
    else None
  }

  /** The table after a visit to the verification link with `token`: an unverified holder of
      the token becomes verified and active; every other row stays as it was. */
  function Verified(users: map<UserId, User>, token: Token): map<UserId, User> {
    map id | id in users ::
      if users[id].verificationToken == token && !users[id].isVerified
      then users[id].(isVerified := true, isActive := true)
      else users[id]
  }

  /** Verification changes only the token holder, and leaves it verified and active. */
  lemma VerifiedChangesOnlyHolder(users: map<UserId, User>, token: Token)
    ensures Verified(users, token).Keys == users.Keys
    ensures forall id :: id in users && users[id].verificationToken != token ==>
              Verified(users, token)[id] == users[id]
    ensures forall id :: id in users && users[id].verificationToken == token ==>
              && Verified(users, token)[id].isVerified
              && (!users[id].isVerified ==> Verified(users, token)[id].isActive)
  {
  }

  /** An unknown token, or a holder that is already verified, changes nothing. */
  lemma VerifiedNoOp(users: map<UserId, User>, token: Token)
    requires forall id :: id in users && users[id].verificationToken == token ==> users[id].isVerified
    ensures Verified(users, token) == users
  {
  }

  /** A second visit to the same link changes nothing more. */
  lemma VerifiedIdempotent(users: map<UserId, User>, token: Token)
    ensures Verified(Verified(users, token), token) == Verified(users, token)
  {
    VerifiedChangesOnlyHolder(users, token);
    VerifiedNoOp(Verified(users, token), token);
  }

  /** What `authenticate` accepts: an active account with this email whose credential takes the password. */
  predicate Authenticates(u: User, email: string, password: string) {
    u.email == email && u.isActive && CheckPassword(u.credential, password)
  }

  /** The permissions of SuperAdminUserView: IsAuthenticated and IsSuperAdmin. */
  predicate CanManageAccounts(req: Requester) {
    IsAuthenticated(req) && IsSuperAdmin(req)
  }

  lemma OnlySuperAdminsManageAccounts(req: Requester)
    ensures CanManageAccounts(req) <==> req.Member? && req.role == SuperAdmin
  {
  }

  class AccountStore {
    var users: map<UserId, User>
    var resets: map<Token, ResetRow>
    var nextId: UserId
    /** settings.EMAIL_HOST_USER */
    const hostUser: string
    /** BaseUserManager.normalize_email */
    const normalizeEmail: string -> string
    /** validate_password: the problems Django's password validators report (none = accepted) */
    const passwordProblems: string -> seq<string>
    /** PasswordReset.is_expired at a clock reading */
    const isExpired: (ResetRow, int) -> bool

    ghost predicate Valid()
      reads this
    {
      && (forall id :: id in users ==> id < nextId)
      && UniqueEmails(users)
      && UniqueTokens(users)
      && StudentsHaveTtuEmail(users)
      && (forall t :: t in resets ==> resets[t].user in users)
      && KeepsTtuSuffix(normalizeEmail)
    }

    constructor (hostUser: string, normalizeEmail: string -> string,
                 passwordProblems: string -> seq<string>, isExpired: (ResetRow, int) -> bool)
      requires KeepsTtuSuffix(normalizeEmail)
      ensures Valid()
      ensures users == map[] && resets == map[]
      ensures this.hostUser == hostUser && this.normalizeEmail == normalizeEmail
      ensures this.passwordProblems == passwordProblems && this.isExpired == isExpired
    {
      users, resets, nextId := map[], map[], 0;
      this.hostUser := hostUser;
      this.normalizeEmail := normalizeEmail;
      this.passwordProblems := passwordProblems;
      this.isExpired := isExpired;
    }

    /** UserManager.create_user: reject a missing email, normalise it, hold a student to the
        TTU suffix, then save the row (the unique email column refusing a duplicate). */
    method CreateUser(email: string, fullName: string, password: Option<string>, token: Token,
                      role: Role := DefaultRole, extra: ExtraFields := NoExtraFields)
      returns (r: Result<UserId, CreateUserError>)
      requires Valid()
      requires !TokenInUse(users, token)
      modifies this
      ensures Valid() && resets == old(resets)
      ensures r.Failure? <==> CreateUserFailure(old(users), email, normalizeEmail(email), role).Some?
      ensures r.Failure? ==>
        && r.error == CreateUserFailure(old(users), email, normalizeEmail(email), role).value
        && users == old(users) && nextId == old(nextId)
      ensures r.Success? ==>
        && r.value !in old(users)
        && users == old(users)[r.value := NewUser(normalizeEmail(email), fullName, role, password, extra, token)]
    {
      var normalized := normalizeEmail(email);
      var failure := CreateUserFailure(users, email, normalized, role);
      if failure.Some? {
        return Failure(failure.value);
      }
      GuardedRowIsClean(email, normalized, fullName, role, password, extra, token);
      var user := NewUser(normalized, fullName, role, password, extra, token);
      r := Success(nextId);
      users := users[nextId := user];
      nextId := nextId + 1;
    }

    /** UserManager.create_superuser: is_staff, is_superuser and role default to true, true
        and SUPERADMIN where the caller did not supply them; then create_user. */
    method CreateSuperuser(email: string, fullName: string, password: Option<string>, token: Token,
                           role: Option<Role> := None, extra: ExtraFields := NoExtraFields)
      returns (r: Result<UserId, CreateUserError>)
      requires Valid()
      requires !TokenInUse(users, token)
      modifies this
      ensures Valid() && resets == old(resets)
      ensures r.Failure? ==> users == old(users)
      ensures r.Failure? <==> CreateUserFailure(old(users), email, normalizeEmail(email), role.GetOr(SuperAdmin)).Some?
      ensures r.Failure? ==> r.error == CreateUserFailure(old(users), email, normalizeEmail(email), role.GetOr(SuperAdmin)).value
      ensures r.Success? ==>
        && r.value !in old(users)
        && users == old(users)[r.value := NewUser(normalizeEmail(email), fullName, role.GetOr(SuperAdmin), password,
             extra.(isStaff := Some(extra.isStaff.GetOr(true)), isSuperuser := Some(extra.isSuperuser.GetOr(true))), token)]
        && users[r.value].role == role.GetOr(SuperAdmin)
        && users[r.value].isStaff == extra.isStaff.GetOr(true)
        && users[r.value].isSuperuser == extra.isSuperuser.GetOr(true)
        && users[r.value].isActive == extra.isActive.GetOr(true)
    {
      var fields := extra;
      if fields.isStaff.None? {
        fields := fields.(isStaff := Some(true));
      }
      if fields.isSuperuser.None? {
        fields := fields.(isSuperuser := Some(true));
      }
      var chosen := if role.Some? then role.value else SuperAdmin;
      r := CreateUser(email, fullName, password, token, chosen, fields);
    }

    /** StudentRegistrationSerializer's validation against the current table. */
    function RegistrationCheck(a: RegistrationAttrs): Result<RegistrationAttrs, Errors>
      reads this
    {
      CheckRegistration(a, EmailInUse(users, a.email), passwordProblems(a.password))
    }

    /** StudentRegisterView: StudentRegistrationSerializer validates, then `create` saves an
        inactive student through create_user and mails the verification link. */
    method RegisterStudent(a: RegistrationAttrs, token: Token) returns (r: Result<UserId, Rejection>, sent: Option<Mail>)
      requires Valid()
      requires !TokenInUse(users, token)
      modifies this
      ensures Valid() && resets == old(resets)
      ensures r.Failure? ==> users == old(users) && sent.None?
      ensures old(RegistrationCheck(a)).Failure? ==> r == Failure(Rejected(old(RegistrationCheck(a)).error))
      ensures old(RegistrationCheck(a)).Success? ==>
        && (r.Success? <==> CreateUserFailure(old(users), a.email, normalizeEmail(a.email), Student).None?)
        && (r.Success? <==> !EmailInUse(old(users), normalizeEmail(a.email)))
        && (r.Failure? ==> r == Failure(Refused(EmailTaken)))
      ensures r.Success? ==>
        && old(RegistrationCheck(a)) == Success(a)
        && r.value !in old(users)
        && r.value in users
        && users == old(users)[r.value := users[r.value]]
        && users[r.value] == NewUser(normalizeEmail(a.email), a.fullName, Student, Some(a.password),
                                     NoExtraFields.(isActive := Some(false), indexNumber := Some(a.indexNumber)), token)
        && sent == Some(VerificationMail(users[r.value].email, a.fullName, token, hostUser))
    {
      var checked := RegistrationCheck(a);
      assert checked.Success? ==> checked.value == a;
      if checked.Failure? {
        return Failure(Rejected(checked.error)), None;
      }
      RegistrationMeetsManagerGuard(a, normalizeEmail);
      var created := CreateUser(a.email, a.fullName, Some(a.password), token, Student,
                                NoExtraFields.(isActive := Some(false), indexNumber := Some(a.indexNumber)));
      if created.Failure? {
        return Failure(Refused(created.error)), None;
      }
      var user := users[created.value];
      r := Success(created.value);
      sent := Some(VerificationMail(user.email, user.fullName, token, hostUser));
    }

    /** SuperAdminUserView's create: the permission check, SuperAdminUserSerializer's
        validation, then `create` saves the account with a fresh temporary password and
        mails it to the new user. */
    method CreateManaged(req: Requester, a: ManagedAttrs, token: Token)
      returns (r: Result<UserId, Rejection>, sent: Option<Mail>)
      requires Valid()
      requires !TokenInUse(users, token)
      modifies this
      ensures Valid() && resets == old(resets)
      ensures r.Failure? ==> users == old(users) && sent.None?
      ensures !CanManageAccounts(req) ==> r == Failure(Forbidden)
      ensures CanManageAccounts(req) && CheckManaged(a, EmailInUse(old(users), a.email)).Failure? ==>
        r == Failure(Rejected(CheckManaged(a, EmailInUse(old(users), a.email)).error))
      ensures CanManageAccounts(req) && CheckManaged(a, EmailInUse(old(users), a.email)).Success? ==>
        && (r.Success? <==> CreateUserFailure(old(users), a.email, normalizeEmail(a.email),
                                              CheckManaged(a, EmailInUse(old(users), a.email)).value.role).None?)
        && (r.Success? <==> a.email != "" && !EmailInUse(old(users), normalizeEmail(a.email)))
        && (r.Success? ==> r.value in users && RoleValue(users[r.value].role) == a.role)
        && (r.Failure? ==> r == Failure(Refused(CreateUserFailure(old(users), a.email, normalizeEmail(a.email),
                                                  CheckManaged(a, EmailInUse(old(users), a.email)).value.role).value)))
      ensures r.Success? ==>
        && CanManageAccounts(req)
        && CheckManaged(a, EmailInUse(old(users), a.email)).Success?
        && r.value !in old(users)
        && r.value in users
        && users == old(users)[r.value := users[r.value]]
        && var u := users[r.value];
           && u.credential.Usable?
           && IsTemporaryPassword(u.credential.secret)
           && u == NewUser(normalizeEmail(a.email), a.fullName, CheckManaged(a, EmailInUse(old(users), a.email)).value.role,
                           Some(u.credential.secret), NoExtraFields.(indexNumber := a.indexNumber, position := a.position), token)
           && u.role != SuperAdmin
           && sent == Some(AccountMail(u.email, u.fullName, u.role, u.credential.secret, hostUser))
    {
      if !CanManageAccounts(req) {
        return Failure(Forbidden), None;
      }
      var checked := CheckManaged(a, EmailInUse(users, a.email));
      if checked.Failure? {
        return Failure(Rejected(checked.error)), None;
      }
      ManagedMeetsManagerGuard(a, EmailInUse(users, a.email), normalizeEmail);
      var temporary := GenerateTemporaryPassword();
      var created := CreateUser(a.email, a.fullName, Some(temporary), token, checked.value.role,
                                NoExtraFields.(indexNumber := a.indexNumber, position := a.position));
      if created.Failure? {
        return Failure(Refused(created.error)), None;
      }
      var user := users[created.value];
      r := Success(created.value);
      sent := Some(AccountMail(user.email, user.fullName, user.role, temporary, hostUser));
    }

    /** SuperAdminUserView's list: every account, for a super admin only. */
    method ListUsers(req: Requester) returns (r: Option<map<UserId, User>>)
      ensures r.Some? <==> CanManageAccounts(req)
      ensures r.Some? ==> r.value == users
    {
      r := if CanManageAccounts(req) then Some(users) else None;
    }

    /** VerifyStudentAccountView.get. */
    method Verify(token: Token) returns (r: Response)
      requires Valid()
      modifies this
      ensures Valid() && resets == old(resets) && nextId == old(nextId)
      ensures users == Verified(old(users), token)
      ensures !TokenInUse(old(users), token) ==> r == Response(404, NotFoundDetail)
      ensures forall id :: id in old(users) && old(users)[id].verificationToken == token ==>
        r == Response(200, if old(users)[id].isVerified then AlreadyVerifiedMessage else VerifiedMessage)
    {
      if !TokenInUse(users, token) {
        VerifiedNoOp(users, token);
        return Response(404, NotFoundDetail);
      }
      var id :| id in users && users[id].verificationToken == token;
      if users[id].isVerified {
        VerifiedNoOp(users, token);
        return Response(200, AlreadyVerifiedMessage);
      }
      users := users[id := users[id].(isVerified := true, isActive := true)];
      r := Response(200, VerifiedMessage);
    }

    /** LoginView.post: one generic message for every failure. */
    method Login(email: string, password: string) returns (r: LoginResult)
      requires Valid()
      ensures r.LoginOk? <==> exists id :: id in users && Authenticates(users[id], email, password)
      ensures r.LoginFailed? ==> r.error == LoginFailedMessage
      ensures r.LoginOk? ==>
        exists id :: id in users && Authenticates(users[id], email, password) &&
          r == LoginOk(LoginSucceededMessage, users[id].email, users[id].fullName, users[id].role)
    {
      if exists id :: id in users && Authenticates(users[id], email, password) {
        var id :| id in users && Authenticates(users[id], email, password);
        var u := users[id];
        r := LoginOk(LoginSucceededMessage, u.email, u.fullName, u.role);
      } else {
        r := LoginFailed(LoginFailedMessage);
      }
    }

    /** PasswordResetRequestView.post: the same answer whether or not the email is known;
        a known email gets one new reset row and a mail with its link. */
    method RequestReset(email: string, token: Token, now: int) returns (r: Response, sent: Option<Mail>)
      requires Valid()
      requires token !in resets
      modifies this
      ensures Valid() && users == old(users) && nextId == old(nextId)
      ensures r == Response(200, ResetRequestDetail)
      ensures !EmailInUse(old(users), email) ==> resets == old(resets) && sent.None?
      ensures forall id :: id in old(users) && old(users)[id].email == email ==>
        resets == old(resets)[token := ResetRow(id, now)] && sent == Some(ResetMail(email, token, hostUser))
    {
      r := Response(200, ResetRequestDetail);
      sent := None;
      if EmailInUse(users, email) {
        var id :| id in users && users[id].email == email;
        resets := resets[token := ResetRow(id, now)];
        sent := Some(ResetMail(users[id].email, token, hostUser));
      }
    }

    /** PasswordResetConfirmView.post: validation, then the token lookup, then the expiry
        test; only a live token sets the password, and then its row is deleted. */
    method ConfirmReset(a: ResetConfirmAttrs, now: int) returns (r: Response)
      requires Valid()
      modifies this
      ensures Valid() && nextId == old(nextId)
      ensures (r.Response? && r.status != 200) || r.Invalid? ==> users == old(users) && resets == old(resets)
      ensures CheckResetConfirm(a, passwordProblems(a.newPassword)).Failure? ==>
        r == Invalid(CheckResetConfirm(a, passwordProblems(a.newPassword)).error)
      ensures CheckResetConfirm(a, passwordProblems(a.newPassword)).Success? && a.token !in old(resets) ==>
        r == Response(404, NotFoundDetail)
      ensures CheckResetConfirm(a, passwordProblems(a.newPassword)).Success? && a.token in old(resets) &&
              isExpired(old(resets)[a.token], now) ==>
        r == Response(400, TokenExpiredDetail)
      ensures CheckResetConfirm(a, passwordProblems(a.newPassword)).Success? && a.token in old(resets) &&
              !isExpired(old(resets)[a.token], now) ==>
        && r == Response(200, ResetDoneDetail)
        && resets == old(resets) - {a.token}
        && var id := old(resets)[a.token].user;
           users == old(users)[id := old(users)[id].(credential := Usable(a.newPassword))]
    {
      var checked := CheckResetConfirm(a, passwordProblems(a.newPassword));
      if checked.Failure? {
        return Invalid(checked.error);
      }
      if a.token !in resets {
        return Response(404, NotFoundDetail);
      }
      var row := resets[a.token];
      if isExpired(row, now) {
        return Response(400, TokenExpiredDetail);
      }
      users := users[row.user := users[row.user].(credential := Usable(a.newPassword))];
      resets := resets - {a.token};
      r := Response(200, ResetDoneDetail);
    }
  }
}
