# FASSA backend — a Dafny model

FASSA is a Django REST backend for course registration at Takoradi Technical University.
This project models its core as sequential, in-memory state, and proves what that core
promises. The core covers:

- accounts: the user manager, the registration, managed-creation and reset serializers, the
  verification, login and password-reset views, and the temporary-password and mail text;
- the role permissions of both apps;
- the course and timetable tables, with the admin endpoints over them;
- the course-registration table, with the student endpoints over it.

Layout, one module per file:

| file | module | models |
|---|---|---|
| wrappers.dfy | Wrappers | `Option` and `Result` |
| text.dfy | Text | suffix and infix tests, joining text, code-point text order, decimal numerals |
| sequences.dfy | Sequences | what a query set does to a table: filter, unique keys, total orders, sort |
| field_errors.dfy | FieldErrors | the `{field: [messages]}` shape of a rejected body and the framework's stock messages |
| account_model.dfy | AccountModel | accounts/models.py: roles, the account record, create_user's guards, `clean` |
| account_permissions.dfy | AccountPermissions | accounts/permissions.py |
| admin_permissions.dfy | AdminPermissions | admin_panel/permissions.py |
| account_utils.dfy | AccountUtils | accounts/utils.py: the temporary password, the role label, the links, the mail text |
| account_serializers.dfy | AccountSerializers | the validation halves of accounts/serializers.py |
| accounts.dfy | Accounts | class `AccountStore`: the user and reset tables, create_user, create_superuser, the serializers' `create`, and the views |
| catalog.dfy | Catalog | class `Catalog`: the Course and Timetable tables of admin_panel/models.py |
| enrolment.dfy | Enrolment | class `RegistrationTable`: students/models.py |
| student_views.dfy | StudentViews | students/views.py |
| admin_views.dfy | AdminViews | admin_panel/views.py |

State that the source changes in place is held by three classes:

- `AccountStore` holds a map of users and a map of password-reset rows.
- `Catalog` holds the course and timetable rows as sequences.
- `RegistrationTable` holds the registration rows as a sequence.

Each class has a `Valid()` invariant, and every method keeps it. The invariants cover:

- unique emails and verification tokens;
- a TTU email for every student;
- unique course codes and ids;
- column bounds;
- timetable rows that name an existing course;
- unique (student, course) pairs.

Each method states its new tables in terms of the old ones. Validation and the read
views are pure functions, and lemmas relate them.

Library behaviour that the code uses but does not show is a constant of each `AccountStore`:

- `normalizeEmail` stands for `normalize_email`.
- `passwordProblems` stands for `validate_password`, as the list of problems it reports.
- `isExpired` stands for `PasswordReset.is_expired` at a clock reading.
- `hostUser` stands for `EMAIL_HOST_USER`.

Random choices are handled as follows:

- uuid4 tokens are passed in by the caller, who must supply a fresh one.
- `random.choice` is a nondeterministic pick from the alphabet.

Behaviour the model makes explicit:

- Field-level checks run before a serializer's `validate`, which runs only when they all pass. These checks are the unique `email` column, Django's password validators and the role choice.
- So, during registration, mismatched passwords are reported under `password` only when the email is not already taken. A taken email is reported alone under `email` (`TakenEmailHidesMismatch`).
- Mismatched passwords always make the registration fail (`RegistrationPasswordFirst`).
- `day_of_week` is free text, so timetables are ordered by the day's name and not by the calendar. `TimetableListsFridayFirst` shows a Friday row listed before a Monday row.
- Two account fields have not caught up with each other. accounts/models.py still declares `first_name`/`last_name`, while the serializers and views use `full_name`, `index_number`, `position`, `is_verified` and `verification_token`. The account record uses that later field set. From models.py it keeps the manager's guards, the column defaults and `clean`.
- The stored record has no `confirm_password` field, because `create` discards it.

## Model

| member | source | states |
|---|---|---|
| AccountModel.SetPasswordAccepts | FASSA/accounts/models.py:17 | after `set_password(p)` the credential accepts exactly `p`; after `set_password(None)` it accepts nothing |
| AccountModel.NewUserDefaults | FASSA/accounts/models.py:39-41 | a row saved without explicit flags keeps its role and is active, not staff, not superuser and not verified |
| AccountModel.CreateUserGuard | FASSA/accounts/models.py:7-14 | an empty email is refused first; otherwise a student whose normalised email lacks `@ttu.edu.gh` is refused; every other call passes (each outcome as an if-and-only-if) |
| AccountModel.OnlyStudentsNeedTtuEmail | FASSA/accounts/models.py:13 | for ADMIN and SUPERADMIN the guard refuses only a missing email, whatever the suffix |
| AccountModel.Clean | FASSA/accounts/models.py:52-55 | `clean` rejects exactly a student whose email lacks the suffix, with its message, and accepts every other record |
| AccountModel.GuardedRowIsClean | FASSA/accounts/models.py:52-55 | every row create_user lets through passes `clean` |
| AccountPermissions.AdmittedRoles | FASSA/accounts/permissions.py:6-18 | for an authenticated user: IsSuperAdmin iff SUPERADMIN, IsAdmin iff ADMIN or SUPERADMIN, IsStudent iff STUDENT |
| AccountPermissions.AnonymousFailsEveryRole | FASSA/accounts/permissions.py:6-18 | an unauthenticated caller fails all three role predicates |
| AccountPermissions.SuperAdminIsAdmin | FASSA/accounts/permissions.py:6-12 | IsSuperAdmin implies IsAdmin |
| AccountPermissions.StudentOrAdmin | FASSA/accounts/permissions.py:12-18 | IsStudent and IsAdmin never both hold, and every authenticated caller satisfies one of them |
| AccountPermissions.RoleImpliesAuthenticated | FASSA/accounts/permissions.py:6-18 | each role predicate implies authentication |
| AccountPermissions.ReadOnlyIgnoresUser | FASSA/accounts/permissions.py:21-24 | ReadOnly gives the same answer for every user and holds iff the method is GET, HEAD or OPTIONS |
| AdminPermissions.AdmitsAdmin | FASSA/admin_panel/permissions.py:6 | an authenticated ADMIN is admitted |
| AdminPermissions.AdmitsSuperAdmin | FASSA/admin_panel/permissions.py:6 | an authenticated SUPERADMIN is admitted |
| AdminPermissions.RejectsStudentAndAnonymous | FASSA/admin_panel/permissions.py:6 | a STUDENT and an unauthenticated caller are rejected |
| AdminPermissions.AgreesWithIsAdmin | FASSA/admin_panel/permissions.py:6 | IsAdminOrSuperAdmin equals accounts' IsAdmin on every caller |
| AccountUtils.AlphabetMembers | FASSA/accounts/utils.py:8 | the alphabet is ASCII letters, digits and punctuation: 94 characters, exactly `!` through `~` |
| AccountUtils.GenerateTemporaryPassword | FASSA/accounts/utils.py:6-9 | the password has exactly `length` characters (10 by default), each drawn from the alphabet |
| AccountUtils.RoleLabel | FASSA/accounts/utils.py:13 | the label is "Faculty Admin" iff the role is ADMIN, and "Student" for every other role, SUPERADMIN included |
| AccountUtils.VerificationLinkToken | FASSA/accounts/utils.py:38 | any link the parser accepts is the verification link of the token it returns |
| AccountUtils.VerificationLinkRoundTrip | FASSA/accounts/utils.py:38 | the token is read back from its verification link (fixed prefix, token, `/`) |
| AccountUtils.ResetLinkToken | FASSA/accounts/utils.py:56 | any link the parser accepts is the reset link of the token it returns |
| AccountUtils.ResetLinkRoundTrip | FASSA/accounts/utils.py:56 | the token is read back from its reset link (fixed prefix, then the token) |
| AccountUtils.LinksAreInjective | FASSA/accounts/utils.py:38-56 | different tokens give different verification links and different reset links |
| AccountUtils.FromAddress | FASSA/accounts/utils.py:31 | the sender is the host user wrapped in the 7-character `FASSA <` and a closing `>` |
| AccountUtils.AccountMessage | FASSA/accounts/utils.py:15-30 | the account mail's body contains the full name, the role label, the user's email and the temporary password |
| AccountUtils.VerificationMessage | FASSA/accounts/utils.py:39-50 | the verification mail's body contains the full name and the verification link |
| AccountUtils.ResetMessage | FASSA/accounts/utils.py:57-69 | the reset mail's body contains the reset link |
| AccountUtils.MailsShareSender | FASSA/accounts/utils.py:31-71 | all three mails come from the same sender and go to the one given address |
| AccountSerializers.EmailErrors | FASSA/accounts/models.py:36 | the unique email column reports under `email` exactly when the email is taken |
| AccountSerializers.PasswordErrors | FASSA/accounts/serializers.py:17-19 | the password validators report under the field they guard exactly when they find a problem |
| AccountSerializers.ValidateRegistration | FASSA/accounts/serializers.py:26-35 | accepts iff the passwords match and the email has the TTU suffix, and returns its input unchanged; a mismatch is reported under `password` before any email error; a bad email is reported under `email` |
| AccountSerializers.CheckRegistration | FASSA/accounts/serializers.py:16-35 | succeeds iff the email is free, the password passes the validators and `validate` accepts; returns the input unchanged; a failure always names a field |
| AccountSerializers.RegistrationPasswordFirst | FASSA/accounts/serializers.py:27-28 | mismatched passwords always fail; with a free email the failure names `password`, and with no field errors it names `password` alone |
| AccountSerializers.TakenEmailHidesMismatch | FASSA/accounts/serializers.py:26-28 | with a taken email and no validator problems, mismatched passwords are reported only as the email error, because `validate` does not run |
| AccountSerializers.RegistrationMeetsManagerGuard | FASSA/accounts/serializers.py:30-45 | an accepted registration passes create_user's guard for a STUDENT on the normalised email, for every normalisation that keeps the `@ttu.edu.gh` suffix (as `normalize_email` does: it lower-cases only the domain) |
| AccountSerializers.ParseManagedRole | FASSA/accounts/serializers.py:66 | the role choice accepts exactly STUDENT and ADMIN, never SUPERADMIN |
| AccountSerializers.ValidateManaged | FASSA/accounts/serializers.py:72-103 | accepts iff the account is well shaped (a student has an index number, a TTU email and no position; an admin has a position and no index number), returning its input; a rejection names exactly one field |
| AccountSerializers.ManagedStudentOrder | FASSA/accounts/serializers.py:78-90 | for a student, a blank index number is reported first, then a non-TTU email, then a non-blank position |
| AccountSerializers.ManagedAdminOrder | FASSA/accounts/serializers.py:93-101 | for an admin, a blank position is reported first, then a non-blank index number; the email never affects the outcome |
| AccountSerializers.CheckManaged | FASSA/accounts/serializers.py:63-103 | succeeds iff the email is free, the role is STUDENT or ADMIN and the account is well shaped; the result carries the submitted fields, its role is the one requested, and it is never a SUPERADMIN |
| AccountSerializers.ManagedMeetsManagerGuard | FASSA/accounts/serializers.py:78-116 | an accepted managed body passes create_user's guard on the normalised email exactly when the email is non-empty: a student's was already checked for the suffix and an admin's is not checked |
| AccountSerializers.ManagedNeverSuperAdmin | FASSA/accounts/serializers.py:66 | asking for SUPERADMIN always fails, under `role` |
| AccountSerializers.CheckResetConfirm | FASSA/accounts/serializers.py:153-161 | succeeds iff `new_password` passes the validators and equals the confirmation, returning the input; validator problems are reported under `new_password`, and otherwise a mismatch under `password` |
| FieldErrors.ColumnErrors | FASSA/admin_panel/models.py:4-9 | a text column has no messages iff it is non-blank (or may be blank) and within its max_length |
| Accounts.CreateUserFailure | FASSA/accounts/models.py:7-18 | create_user saves iff its guard passes and no account already has the normalised email |
| Accounts.VerifiedChangesOnlyHolder | FASSA/accounts/views.py:37-40 | verification keeps every account, leaves accounts without the token unchanged, and leaves the holder verified, and active if it was unverified |
| Accounts.VerifiedNoOp | FASSA/accounts/views.py:33-35 | an unknown token, or a holder already verified, changes nothing |
| Accounts.VerifiedIdempotent | FASSA/accounts/views.py:37-40 | a second visit to the same link changes nothing |
| Accounts.OnlySuperAdminsManageAccounts | FASSA/accounts/views.py:45 | the managed-account endpoint admits exactly authenticated SUPERADMINs |
| Accounts.AccountStore.CreateUser | FASSA/accounts/models.py:6-19 | fails iff `CreateUserFailure` (an empty email, a non-TTU student, a taken email), saving nothing; otherwise adds exactly one row, with the normalised email and the defaults, under a fresh id |
| Accounts.AccountStore.CreateSuperuser | FASSA/accounts/models.py:21-26 | role, is_staff and is_superuser become SUPERADMIN, true and true unless supplied explicitly; then create_user: it fails exactly as create_user does with nothing saved, and otherwise adds exactly the row create_user builds from those defaulted fields |
| Accounts.AccountStore.RegisterStudent | FASSA/accounts/serializers.py:26-57 | a rejected registration changes nothing and sends nothing; an accepted one is saved exactly when its normalised email is free (otherwise the unique column refuses it), and then adds one inactive, unverified STUDENT holding the password and index number, and composes the verification mail for its token |
| Accounts.AccountStore.CreateManaged | FASSA/accounts/serializers.py:105-126 | a non-super-admin is refused and a rejected body changes nothing; an accepted body is saved exactly when its email is non-empty and its normalised email is free, and otherwise fails with create_user's own refusal; when saved, one account is added with the requested role, index number and position and a generated temporary password, and the mail carries that same password |
| Accounts.AccountStore.ListUsers | FASSA/accounts/views.py:43-46 | the whole user table, only for an authenticated SUPERADMIN |
| Accounts.AccountStore.Verify | FASSA/accounts/views.py:32-40 | the table becomes `Verified(old, token)`; an unknown token answers 404; the holder answers "already verified" or "verified successfully" with 200 |
| Accounts.AccountStore.Login | FASSA/accounts/views.py:53-72 | succeeds iff some active account has this email and accepts the password, answering with that account's email, name and role; every failure carries the one message "Invalid email or password." |
| Accounts.AccountStore.RequestReset | FASSA/accounts/views.py:85-99 | the same 200 answer whatever the email; a known email adds exactly one reset row, leaving the others, and composes the reset mail; an unknown one changes nothing |
| Accounts.AccountStore.ConfirmReset | FASSA/accounts/views.py:105-120 | invalid input, an unknown token (404) or an expired token (400) change nothing; a live token sets that user's password and deletes exactly that row |
| Catalog.CodeErrors | FASSA/admin_panel/models.py:4 | the code has no messages iff it is non-blank, unused by any other course and at most 20 characters |
| Catalog.CourseErrors | FASSA/admin_panel/models.py:4-9 | a course body is accepted iff every column fits its bounds and the code is not taken |
| Catalog.SlotErrors | FASSA/admin_panel/models.py:16-20 | a timetable body is accepted iff its course exists, the day is non-blank and at most 10 characters, and the venue at most 255; a missing course is reported under `course` exactly when it is missing |
| Catalog.OtherCourses | FASSA/admin_panel/models.py:3 | deleting a course keeps exactly the other courses, each as often as before |
| Catalog.SlotsNotOf | FASSA/admin_panel/models.py:16 | the cascade keeps exactly the timetable rows of other courses, each as often as before |
| Catalog.OtherSlots | FASSA/admin_panel/models.py:15-20 | deleting a timetable row keeps exactly the other rows |
| Catalog.CascadeKeepsTables | FASSA/admin_panel/models.py:16 | after a course and its rows are deleted, ids and codes stay unique and every remaining row still names an existing course |
| Catalog.ByCodeOrders | FASSA/admin_panel/views.py:7 | ordering by code is total and transitive |
| Catalog.ByDayTimeOrders | FASSA/admin_panel/models.py:22-23 | ordering by (day_of_week as text, start_time) is total and transitive |
| Catalog.ByCodeDayTimeOrders | FASSA/admin_panel/views.py:17 | ordering by (course code, day_of_week, start_time) is total and transitive |
| Catalog.Catalog.AddCourse | FASSA/admin_panel/models.py:3-9 | a rejected body changes nothing; an accepted one appends one course with a fresh id; codes stay unique and bounded |
| Catalog.Catalog.UpdateCourse | FASSA/admin_panel/models.py:3-9 | unknown id: 404 and nothing changes; a rejected body changes nothing; otherwise only that course's columns are replaced, and its code may repeat only its own |
| Catalog.Catalog.DeleteCourse | FASSA/admin_panel/models.py:16 | the course and all of its timetable rows are removed, and nothing else |
| Catalog.Catalog.AddSlot | FASSA/admin_panel/models.py:15-20 | a row naming a missing course, or with bad columns, is rejected with nothing changed; otherwise one row is appended |
| Catalog.Catalog.UpdateSlot | FASSA/admin_panel/models.py:15-20 | unknown id: 404; a rejected body changes nothing; otherwise only that row is replaced |
| Catalog.Catalog.DeleteSlot | FASSA/admin_panel/models.py:15-20 | exactly that timetable row is removed |
| Enrolment.WithoutStudent | FASSA/students/models.py:6 | deleting a student keeps exactly the other students' registrations, and pairs stay unique |
| Enrolment.WithoutCourse | FASSA/students/models.py:7 | deleting a course keeps exactly the other courses' registrations, and pairs stay unique |
| Enrolment.CascadesKeepReferences | FASSA/students/models.py:6-7 | after either cascade every remaining registration names an existing user and an existing course |
| Enrolment.RegistrationTable.Insert | FASSA/students/models.py:5-11 | a new pair whose ends exist is added as exactly one row; a repeated pair (or a missing end) changes nothing; pairs stay unique |
| Enrolment.RegistrationTable.DeleteStudent | FASSA/students/models.py:6 | exactly that student's registrations are removed |
| Enrolment.RegistrationTable.DeleteCourse | FASSA/students/models.py:7 | exactly that course's registrations are removed |
| StudentViews.RegisteredCourses | FASSA/students/views.py:30 | the ids are exactly the courses with a registration row for the student |
| StudentViews.AvailableCourses | FASSA/students/views.py:8-15 | for any authenticated caller, every course exactly once each, sorted by code; anonymous callers are refused |
| StudentViews.MyCourses | FASSA/students/views.py:24-31 | for a student only: exactly the courses this student has a registration for, each once; no other student's courses |
| StudentViews.RegisteredSlots | FASSA/students/views.py:39-41 | exactly the timetable rows whose course the student is registered for, each as often as in the table |
| StudentViews.PersonalTimetable | FASSA/students/views.py:34-41 | for a student only: exactly those rows, sorted by (day_of_week as text, start_time) |
| StudentViews.RegisterCourse | FASSA/students/views.py:18-21 | non-students are refused with nothing changed; a student's new pair is added as one row |
| StudentViews.DaysSortAsText | FASSA/students/views.py:41 | a Friday row sorts before a Monday row, and not the reverse |
| StudentViews.TimetableListsFridayFirst | FASSA/students/views.py:39-41 | a student registered for a course with a Monday and a Friday row gets the Friday row first |
| AdminViews.OnlyAdminsAdminister | FASSA/admin_panel/views.py:9 | the admin endpoints admit exactly authenticated ADMINs and SUPERADMINs, agreeing with IsAdminOrSuperAdmin |
| AdminViews.CourseList | FASSA/admin_panel/views.py:6-9 | for admins only: every course exactly once, sorted by code |
| AdminViews.TimetableList | FASSA/admin_panel/views.py:16-19 | for admins only: every timetable row exactly once, sorted by (course code, day_of_week, start_time) |
| AdminViews.RetrieveCourse | FASSA/admin_panel/views.py:11-14 | refused for non-admins; 404 iff no course has the id; otherwise that course |
| AdminViews.RetrieveSlot | FASSA/admin_panel/views.py:21-24 | refused for non-admins; 404 iff no row has the id; otherwise that row |
| AdminViews.CreateCourse | FASSA/admin_panel/views.py:6-9 | refused for non-admins with nothing changed; for an admin, rejected with `CourseErrors` exactly when they are non-empty and otherwise created: one fresh-id row appended |
| AdminViews.UpdateCourse | FASSA/admin_panel/views.py:11-14 | refused for non-admins with nothing changed; for an admin, 404 exactly for an unknown id, then rejected with `CourseErrors` exactly when they are non-empty, and otherwise only that row is replaced |
| AdminViews.DestroyCourse | FASSA/admin_panel/views.py:11-14 | refused for non-admins; for an admin, 404 exactly for an unknown id, and otherwise the deletion is done: the course, its timetable rows and its registrations are removed, and nothing else |
| AdminViews.CreateSlot | FASSA/admin_panel/views.py:16-19 | refused for non-admins with nothing changed; for an admin, rejected with `SlotErrors` exactly when they are non-empty and otherwise created: one row appended |
| AdminViews.UpdateSlot | FASSA/admin_panel/views.py:21-24 | refused for non-admins with nothing changed; for an admin, 404 exactly for an unknown id, then rejected with `SlotErrors` exactly when they are non-empty, and otherwise only that row is replaced |
| AdminViews.DestroySlot | FASSA/admin_panel/views.py:21-24 | refused for non-admins; for an admin, 404 exactly for an unknown id, and otherwise the deletion is done: exactly that row is removed |

## Left out

- Mail transport is not modelled: `send_mail`, the SMTP settings and `fail_silently`. The mails come back as values holding subject, text, sender and recipient.
- The login response's JWT access and refresh tokens (`RefreshToken.for_user`) are omitted.
- Password hashing is abstracted: a credential accepts exactly the raw password it was set from.
- `authenticate` is taken to be Django's default backend: an active account with that email whose credential accepts the password.
- `normalize_email`, `validate_password` and `PasswordReset.is_expired` are left uninterpreted, as constants of the store. Of `normalize_email` the store assumes only that an email ending in `@ttu.edu.gh` keeps that suffix, which holds because it lower-cases only the domain.
- The parsing of tokens as UUIDs is not modelled. Tokens are opaque text.
- The expiry window is not fixed. The PasswordReset model is not part of this model; only its `user` link and creation time are used.
- Entropy is not modelled. The temporary password is any choice from the alphabet.
- Tokens come from the caller, who must supply a fresh one.
- The framework's generic request checks are left out: required keys, type and format (an email's shape, a time's format) and whitespace trimming. So are the 400 errors they give, including the LoginSerializer's.
- When one field has several messages, their order follows the framework's validator order and is not a claim of this model.
- An unauthenticated caller and a forbidden one are not told apart (401 against 403). Both are refused.
- Text order is the code-point order, as in Python. A database collation that compares differently is not modelled.
- Ties in `order_by` are left in an unspecified order.
- Requests run one at a time. Uniqueness under concurrent requests is the database's concern.
- Routing (the two urls.py files) is not modelled.
- Output field projection (admin_panel/serializers.py, UserProfileSerializer, and SuperAdminUserSerializer's five fields in the account list) is not modelled: `ListUsers` returns whole account records.
- The user-profile view is not modelled.
- The search and ordering query parameters of the available-course list are not modelled. Its search field `lecturer__name` does not match the plain `lecturer` column.
- Partial updates (PATCH) are not modelled. Updates replace every editable column.
- The students' serializers are not part of this model. `RegisterCourse` assumes the registering student is the requesting user. It checks, in this order, that the student exists, that the course exists and that the pair is new.
- No view deletes users. `RegistrationTable.DeleteStudent` models the cascade, but nothing in the model calls it. What happens to reset rows when a user is deleted is not modelled.
- `date_joined` is omitted. `date_registered` is the clock reading passed to `Insert`.
- Times are whole minutes. Nothing requires `end_time` to be after `start_time`, because the code does not.
- The columns of the older accounts/models.py snapshot (`first_name`, `last_name`) are not modelled.
- The database's refusal of a duplicate email has no message of its own in the source, so `EmailTaken` carries none. The texts of create_user's `ValueError` and `ValidationError` are not modelled either: the model records which of the two was raised.
- The later account schema (with `index_number`) is not part of this model, so its column constraints are not shown. Uniqueness of `index_number` is not modelled: only the `email` column is unique, and registration and managed creation do not check the index number against the table.
- Catalog.CourseErrors: states when a course body is accepted, not which field each message is filed under.
