/** The text side of accounts/utils.py: the temporary password generator and the
    subject, link, sender and body of each notification mail. Sending is not modelled. */
module AccountUtils {
  import opened Wrappers
  import opened Text
  import opened AccountModel

  /** The characters from `lo` to `hi` in code-point order. */
  function CharRange(lo: char, hi: char): (r: string)
    requires lo <= hi < 128 as char
    ensures |r| == hi as int - lo as int + 1
    ensures forall i :: 0 <= i < |r| ==> r[i] as int == lo as int + i
  {
    seq(hi as int - lo as int + 1, i requires 0 <= i <= hi as int - lo as int => (lo as int + i) as char)
  }

  lemma InCharRange(c: char, lo: char, hi: char)
    requires lo <= hi < 128 as char
    ensures c in CharRange(lo, hi) <==> lo <= c <= hi
  {
    var r := CharRange(lo, hi);
    if lo <= c <= hi {
      assert r[c as int - lo as int] == c;
    }
  }

  /** Python's string.ascii_letters ("abc...xyzABC...XYZ"), string.digits ("0123456789")
      and string.punctuation ("!\"#$%&'()*+,-./:;<=>?@[\\]^_`{|}~"). */
  const AsciiLetters := CharRange('a', 'z') + CharRange('A', 'Z')
  const Digits := CharRange('0', '9')
  const Punctuation := CharRange('!', '/') + CharRange(':', '@') + CharRange('[', '`') + CharRange('{', '~')

  /** The characters a temporary password is drawn from. */
  const PasswordAlphabet := AsciiLetters + Digits + Punctuation

  const DefaultPasswordLength := 10

  predicate IsAsciiLetter(c: char) {
    'a' <= c <= 'z' || 'A' <= c <= 'Z'
  }

  predicate IsAsciiDigit(c: char) {
    '0' <= c <= '9'
  }

  predicate IsAsciiPunctuation(c: char) {
    '!' <= c <= '/' || ':' <= c <= '@' || '[' <= c <= '`' || '{' <= c <= '~'
  }

  /** The alphabet holds 94 characters: exactly the printable ASCII characters other
      than the space, each a letter, a digit or a punctuation mark. */
  lemma AlphabetMembers(c: char)
    ensures |PasswordAlphabet| == 94
    ensures c in AsciiLetters <==> IsAsciiLetter(c)
    ensures c in Digits <==> IsAsciiDigit(c)
    ensures c in Punctuation <==> IsAsciiPunctuation(c)
    ensures c in PasswordAlphabet <==> '!' <= c <= '~'
  {
    InCharRange(c, 'a', 'z');
    InCharRange(c, 'A', 'Z');
    InCharRange(c, '0', '9');
    InCharRange(c, '!', '/');
    InCharRange(c, ':', '@');
    InCharRange(c, '[', '`');
    InCharRange(c, '{', '~');
  }

  /** A password of the default length drawn from the alphabet. */
  predicate IsTemporaryPassword(p: string) {
    |p| == DefaultPasswordLength && forall i :: 0 <= i < |p| ==> p[i] in PasswordAlphabet
  }

  /** generate_temporary_password: `length` characters, each a random pick from the alphabet. */
  method GenerateTemporaryPassword(length: nat := DefaultPasswordLength) returns (password: string)
    ensures |password| == length
    ensures forall i :: 0 <= i < |password| ==> password[i] in PasswordAlphabet
  {
    password := "";
    for k := 0 to length
      invariant |password| == k
      invariant forall i :: 0 <= i < |password| ==> password[i] in PasswordAlphabet
    {
      assert PasswordAlphabet[0] in PasswordAlphabet;
      var c :| c in PasswordAlphabet;  // random.choice(chars)
      password := password + [c];
    }
  }

  /** The role wording of the account-creation mail. */
  function RoleLabel(role: Role): (wording: string)
    ensures wording == "Faculty Admin" <==> role == Admin
    ensures wording == "Student" <==> role != Admin
  {
    if role == Admin then "Faculty Admin" else "Student"
  }

  const LoginLink := "http://127.0.0.1:8000/api/accounts/login/"
  const VerificationLinkPrefix := "http://127.0.0.1:8000/api/accounts/verify/"
  const ResetLinkPrefix := "http://127.0.0.1:8000/api/accounts/password-reset/confirm/?token="

  function VerificationLink(token: Token): string {
    VerificationLinkPrefix + token + "/"
  }

  /** The token a verification link carries, read back the way the `verify/<token>/` route does. */
  function VerificationLinkToken(link: string): (t: Option<Token>)
    ensures t.Some? ==> VerificationLink(t.value) == link
  {
    var n := |VerificationLinkPrefix|;
    if n < |link| && link[..n] == VerificationLinkPrefix && link[|link| - 1] == '/'
    then
      assert link == link[..n] + link[n..|link| - 1] + [link[|link| - 1]];
      Some(link[n..|link| - 1])
    else None
  }

  /** A verification link gives back exactly the token it was built from. */
  lemma VerificationLinkRoundTrip(token: Token)
    ensures VerificationLinkToken(VerificationLink(token)) == Some(token)
  {
    var link := VerificationLink(token);
    var n := |VerificationLinkPrefix|;
    assert link[..n] == VerificationLinkPrefix;
    assert link[n..|link| - 1] == token;
  }

  function ResetLink(token: Token): string {
    ResetLinkPrefix + token
  }

  /** The `token` query parameter of a reset link. */
  function ResetLinkToken(link: string): (t: Option<Token>)
    ensures t.Some? ==> ResetLink(t.value) == link
  {
    var n := |ResetLinkPrefix|;
    if n <= |link| && link[..n] == ResetLinkPrefix
    then
      assert link == link[..n] + link[n..];
      Some(link[n..])
    else None
  }

  lemma ResetLinkRoundTrip(token: Token)
    ensures ResetLinkToken(ResetLink(token)) == Some(token)
  {
    var link := ResetLink(token);
    var n := |ResetLinkPrefix|;
    assert link[..n] == ResetLinkPrefix;
    assert link[n..] == token;
  }

  /** Distinct tokens give distinct links, so a link names one account or one reset row. */
  lemma LinksAreInjective(a: Token, b: Token)
    ensures VerificationLink(a) == VerificationLink(b) ==> a == b
    ensures ResetLink(a) == ResetLink(b) ==> a == b
  {
    VerificationLinkRoundTrip(a);
    VerificationLinkRoundTrip(b);
    ResetLinkRoundTrip(a);
    ResetLinkRoundTrip(b);
  }

  /** The sender of every mail: the configured host user wrapped as `FASSA <...>`. */
  function FromAddress(hostUser: string): (from: string)
    ensures |from| == |hostUser| + 8
    ensures from[..7] == "FASSA <" && from[|from| - 1] == '>'
    ensures from[7..|from| - 1] == hostUser
  {
    "FASSA <" + hostUser + ">"
  }

  /** The plain-text message of send_account_email. */
  function AccountMessage(userEmail: string, fullName: string, role: Role, tempPassword: string): (msg: string)
    ensures IsInfix(fullName, msg) && IsInfix(RoleLabel(role), msg)
    ensures IsInfix(userEmail, msg) && IsInfix(tempPassword, msg)
  {
    var pieces := [
      "\nHello ", fullName, ",\n\nAn account has been created for you as a FASSA ", RoleLabel(role),
      ".\nHere are your login details:\n\nEmail: ", userEmail,
      "\nTemporary Password: ", tempPassword,
      "\n\nLogin here: " + LoginLink + "\n\nPlease change your password after logging in.\n\nRegards,\nFASSA\n"];
    PieceOccurs(pieces, 1);
    PieceOccurs(pieces, 3);
    PieceOccurs(pieces, 5);
    PieceOccurs(pieces, 7);
    Join(pieces)
  }

  /** The plain-text message of send_student_verification_email. */
  function VerificationMessage(fullName: string, token: Token): (msg: string)
    ensures IsInfix(fullName, msg) && IsInfix(VerificationLink(token), msg)
  {
    var pieces := [
      "\nHello ", fullName,
      ",\n\nThank you for registering at FASSA. Please verify your account by clicking the link below:\n\n",
      VerificationLink(token),
      "\n\nOnce verified, you can log in using your email and password.\n\nRegards,\nFASSA\n"];
    PieceOccurs(pieces, 1);
    PieceOccurs(pieces, 3);
    Join(pieces)
  }

  /** The plain-text message of send_password_reset_email. */
  function ResetMessage(token: Token): (msg: string)
    ensures IsInfix(ResetLink(token), msg)
  {
    var pieces := [
      "\nHello,\n\nClick the link below to reset your password:\n\n",
      ResetLink(token),
      "\n\nIf you did not request this, ignore this email.\n\nRegards,\nFASSA\n"];
    PieceOccurs(pieces, 1);
    Join(pieces)
  }

  /** A mail as handed to send_mail: subject, plain-text message, sender and recipients. */
  datatype Mail = Mail(subject: string, message: string, fromEmail: string, recipients: seq<string>)

  const AccountSubject := "Your FASSA Account Has Been Created"
  const VerificationSubject := "Verify Your FASSA Account"
  const ResetSubject := "Reset Your FASSA Password"

  function AccountMail(userEmail: string, fullName: string, role: Role, tempPassword: string,
                       hostUser: string): Mail
  {
    Mail(AccountSubject, AccountMessage(userEmail, fullName, role, tempPassword), FromAddress(hostUser), [userEmail])
  }

  function VerificationMail(userEmail: string, fullName: string, token: Token, hostUser: string): Mail {
    Mail(VerificationSubject, VerificationMessage(fullName, token), FromAddress(hostUser), [userEmail])
  }

  function ResetMail(email: string, token: Token, hostUser: string): Mail {
    Mail(ResetSubject, ResetMessage(token), FromAddress(hostUser), [email])
  }

  /** Every mail the system composes goes to one recipient from the same sender, and the
      verification and reset mails carry links from which the token can be read back. */
  lemma MailsShareSender(email: string, fullName: string, role: Role, pw: string, token: Token, hostUser: string)
    ensures var m := AccountMail(email, fullName, role, pw, hostUser);
      m.fromEmail == FromAddress(hostUser) && m.recipients == [email]
    ensures var m := VerificationMail(email, fullName, token, hostUser);
      m.fromEmail == FromAddress(hostUser) && m.recipients == [email]
    ensures var m := ResetMail(email, token, hostUser);
      m.fromEmail == FromAddress(hostUser) && m.recipients == [email]
  {
  }
}
