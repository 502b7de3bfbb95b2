/** The patient account gates: registration, login, and the password-reset flow. Hashing,
    reCAPTCHA, the email-format validator, the ID upload, token generation and mail transport
    are foreign; their answers are parameters. */
module UserAccounts {
  import opened Collections
  import opened Models
  import opened ClinicStore
  import opened EmailService

  /** The registration form; "" stands for a missing field. */
  datatype RegistrationForm = RegistrationForm(firstName: string, lastName: string,
                                               middleName: string, email: string,
                                               password: string, dob: string,
                                               recaptchaToken: string, hasIdFile: bool)

  const MissingDetails := "Missing Details. Please provide all required information including a valid ID and date of birth."
  const RecaptchaFailed := "reCAPTCHA verification failed. Please try again."
  const InvalidEmail := "Please enter a valid email"
  const WeakPassword := "Please enter a strong password (minimum 8 characters)"
  const EmailTaken := "Email already registered"
  const UploadFailed := "Error uploading ID image. Please try again."
  const Registered := "Registration successful! Please wait for admin approval."

  /** The form checks of registration, which come before the email lookup. recaptchaOk is the
      verification service's answer and emailValid the validator's. */
  predicate FormAcceptable(form: RegistrationForm, recaptchaOk: bool, emailValid: bool) {
    form.firstName != "" && form.lastName != "" && form.email != "" && form.password != ""
    && form.hasIdFile && form.dob != ""
    && form.recaptchaToken != "" && recaptchaOk && emailValid
    && |form.password| >= 8
  }

  /** The checks of registerUser in the order they run; the first that fails decides. An
      acceptable form is refused only for an email already registered. */
  function RegistrationCheck(users: seq<User>, form: RegistrationForm, recaptchaOk: bool,
                             emailValid: bool): (r: Option<Reply>)
    ensures r.None? <==> (FormAcceptable(form, recaptchaOk, emailValid)
                          && UserByEmail(users, form.email).None?)
    ensures r.Some? ==> r.value.code == 400 && !r.value.success
    ensures FormAcceptable(form, recaptchaOk, emailValid) && UserByEmail(users, form.email).Some?
            <==> r == Some(ErrorReply(400, EmailTaken))
  {
    if form.firstName == "" || form.lastName == "" || form.email == "" || form.password == ""
       || !form.hasIdFile || form.dob == "" then Some(ErrorReply(400, MissingDetails))
    else if form.recaptchaToken == "" then Some(ErrorReply(400, RecaptchaFailed))
    else if !recaptchaOk then Some(ErrorReply(400, RecaptchaFailed))
    else if !emailValid then Some(ErrorReply(400, InvalidEmail))
    else if |form.password| < 8 then Some(ErrorReply(400, WeakPassword))
    else if UserByEmail(users, form.email).Some? then Some(ErrorReply(400, EmailTaken))
    else None
  }

  /** A new account as registration creates it: pending approval, not archived, no reset
      token. */
  function NewUser(id: string, form: RegistrationForm, passwordHash: string, validId: string)
    : (u: User)
    ensures u.id == id && u.email == form.email && u.passwordHash == passwordHash
    ensures u.approvalStatus == Pending && !u.isArchived && u.archivedAt.None?
    ensures u.resetToken.None? && u.resetExpires.None?
  {
    User(id, form.firstName, form.middleName, form.lastName, form.email, passwordHash, form.dob,
         validId, Pending, false, None, None, None)
  }

  /** registerUser: the gate, the ID upload (upload is its URL, None when it fails), then the
      new pending account and the alert to the clinic. The alert's outcome does not affect the
      reply. */
  method RegisterUser(db: Store, form: RegistrationForm, recaptchaOk: bool, emailValid: bool,
                      upload: Option<string>, passwordHash: string, newId: string)
    returns (reply: Reply, alert: Option<AdminAlertMail>)
    requires db.Valid()
    requires UserIndex(db.users, newId).None?
    modifies db
    ensures db.Valid()
    ensures db.doctors == old(db.doctors) && db.appointments == old(db.appointments)
    ensures var check := RegistrationCheck(old(db.users), form, recaptchaOk, emailValid);
            if check.Some? then
              reply == check.value && alert.None? && db.users == old(db.users)
            else if upload.None? then
              reply == ErrorReply(500, UploadFailed) && alert.None? && db.users == old(db.users)
            else
              reply == Ok(Registered)
              && alert == Some(AdminRegistrationAlert(form.firstName, form.middleName, form.lastName))
              && db.users == old(db.users) + [NewUser(newId, form, passwordHash, upload.value)]
  {
    var check := RegistrationCheck(db.users, form, recaptchaOk, emailValid);
    if check.Some? {
      return check.value, None;
    }
    if upload.None? {
      return ErrorReply(500, UploadFailed), None;
    }
    var u := NewUser(newId, form, passwordHash, upload.value);
    AppendUserKeepsValid(db.users, u);
    db.users := db.users + [u];
    reply := Ok(Registered);
    alert := Some(AdminRegistrationAlert(form.firstName, form.middleName, form.lastName));
  }

  /** Once an email is registered, a second registration with it is refused, whatever else
      the form says. */
  lemma EmailRegisteredOnce(users: seq<User>, u: User, form: RegistrationForm, recaptchaOk: bool,
                            emailValid: bool)
    requires form.email == u.email
    ensures RegistrationCheck(users + [u], form, recaptchaOk, emailValid).Some?
  {
    assert (users + [u])[|users|].email == form.email;
  }

  /** What loginUser answers: a session for a user id, or a refusal. */
  datatype LoginResult = LoggedIn(userId: string) | LoginRefused(reply: Reply)

  const UserNotFound := "User not found"
  const PendingApproval := "Your registration is pending approval"
  const RegistrationDeclined := "Your registration has been declined"
  const AccountBlocked := "Your account has been blocked. Please contact support for assistance."
  const InvalidPassword := "Invalid password"

  /** loginUser: the account by email, the approval gate, then the password. matches is the
      hash comparison. */
  function Login(users: seq<User>, email: string, password: string,
                 matches: (string, string) -> bool): (r: LoginResult)
    ensures r.LoggedIn? <==>
              UserByEmail(users, email).Some?
              && users[UserByEmail(users, email).value].approvalStatus == Approved
              && matches(password, users[UserByEmail(users, email).value].passwordHash)
    ensures r.LoggedIn? ==> r.userId == users[UserByEmail(users, email).value].id
    ensures UserByEmail(users, email).None? ==> r == LoginRefused(ErrorReply(400, UserNotFound))
    ensures UserByEmail(users, email).Some? ==>
              var u := users[UserByEmail(users, email).value];
              (u.approvalStatus == Pending ==> r == LoginRefused(ErrorReply(403, PendingApproval)))
              && (u.approvalStatus == Declined ==> r == LoginRefused(ErrorReply(403, RegistrationDeclined)))
              && (u.approvalStatus == Blocked ==> r == LoginRefused(ErrorReply(403, AccountBlocked)))
  {
    match UserByEmail(users, email)
    case None => LoginRefused(ErrorReply(400, UserNotFound))
    case Some(i) =>
      var u := users[i];
      match u.approvalStatus
      case Pending => LoginRefused(ErrorReply(403, PendingApproval))
      case Declined => LoginRefused(ErrorReply(403, RegistrationDeclined))
      case Blocked => LoginRefused(ErrorReply(403, AccountBlocked))
      case Approved =>
        if matches(password, u.passwordHash) then LoggedIn(u.id)
        else LoginRefused(ErrorReply(400, InvalidPassword))
  }

  /** A freshly registered account cannot log in, whatever the password, until an admin
      approves it. */
  lemma NewAccountCannotLogIn(users: seq<User>, id: string, form: RegistrationForm, hash: string,
                              validId: string, password: string, matches: (string, string) -> bool)
    requires UserByEmail(users, form.email).None?
    ensures Login(users + [NewUser(id, form, hash, validId)], form.email, password, matches)
            == LoginRefused(ErrorReply(403, PendingApproval))
  {
    var users' := users + [NewUser(id, form, hash, validId)];
    assert users'[|users|].email == form.email;
    assert UserByEmail(users', form.email) == Some(|users|);
  }

  /** Archiving is not consulted at login: an approved archived account still logs in. */
  lemma ArchivedAccountCanLogIn(users: seq<User>, email: string, password: string,
                                matches: (string, string) -> bool)
    requires UserByEmail(users, email).Some?
    requires users[UserByEmail(users, email).value].approvalStatus == Approved
    requires matches(password, users[UserByEmail(users, email).value].passwordHash)
    ensures Login(users, email, password, matches).LoggedIn?
  {
  }

  /** One hour in milliseconds: how long a reset token stays valid. */
  const ResetWindow := 3600000

  /** The token query { resetPasswordToken: token, resetPasswordExpires: { $gt: now } }. */
  predicate HoldsLiveToken(u: User, token: string, now: Millis) {
    u.resetToken == Some(token) && u.resetExpires.Some? && u.resetExpires.value > now
  }

  function TokenHolder(users: seq<User>, token: string, now: Millis): (r: Option<nat>)
    ensures r.Some? ==> r.value < |users| && HoldsLiveToken(users[r.value], token, now)
    ensures r.Some? ==> forall k :: 0 <= k < r.value ==> !HoldsLiveToken(users[k], token, now)
    ensures r.None? <==> forall k :: 0 <= k < |users| ==> !HoldsLiveToken(users[k], token, now)
  {
    FindFirst(users, (u: User) => HoldsLiveToken(u, token, now))
  }

  const EmailRequired := "Please provide your email address"
  const NoAccount := "No account found with this email address"
  const ResetLinkSent := "Password reset link has been sent to your email"
  const ResetMailFailed := "Failed to send password reset email. Please try again later."

  /** The account after a token is issued at time now. */
  function IssueToken(u: User, token: string, now: Millis): (r: User)
    ensures r.(resetToken := u.resetToken, resetExpires := u.resetExpires) == u
    ensures forall t :: HoldsLiveToken(r, token, t) <==> t < now + ResetWindow
  {
    u.(resetToken := Some(token), resetExpires := Some(now + ResetWindow))
  }

  /** The account with its reset token cleared. */
  function ClearToken(u: User): (r: User)
    ensures r.(resetToken := u.resetToken, resetExpires := u.resetExpires) == u
    ensures forall token, t :: !HoldsLiveToken(r, token, t)
  {
    u.(resetToken := None, resetExpires := None)
  }

  /** forgotPassword: the token is saved before the mail goes out (mailSent is the send
      function's result) and cleared again when the mail fails. baseUrl is the configured
      front-end address. */
  method ForgotPassword(db: Store, email: string, token: string, now: Millis, baseUrl: string,
                        mailSent: bool)
    returns (reply: Reply, mail: Option<PasswordResetMail>)
    requires db.Valid()
    modifies db
    ensures db.Valid()
    ensures db.doctors == old(db.doctors) && db.appointments == old(db.appointments)
    ensures email == "" ==>
              reply == ErrorReply(400, EmailRequired) && mail.None? && db.users == old(db.users)
    ensures email != "" && UserByEmail(old(db.users), email).None? ==>
              reply == ErrorReply(404, NoAccount) && mail.None? && db.users == old(db.users)
    ensures email != "" && UserByEmail(old(db.users), email).Some? ==>
              var i := UserByEmail(old(db.users), email).value;
              var u := old(db.users)[i];
              mail == Some(PasswordResetMail(u.email, baseUrl + "/reset-password/" + token))
              && (mailSent ==> reply == Ok(ResetLinkSent)
                               && db.users == old(db.users)[i := IssueToken(u, token, now)])
              && (!mailSent ==> reply == ErrorReply(500, ResetMailFailed)
                                && db.users == old(db.users)[i := ClearToken(u)])
  {
    if email == "" {
      return ErrorReply(400, EmailRequired), None;
    }
    var found := UserByEmail(db.users, email);
    if found.None? {
      return ErrorReply(404, NoAccount), None;
    }
    var i := found.value;
    var u := db.users[i];
    ReplaceUserKeepsValid(db.users, i, IssueToken(u, token, now));
    db.users := db.users[i := IssueToken(u, token, now)];
    mail := Some(PasswordResetMail(u.email, baseUrl + "/reset-password/" + token));
    if mailSent {
      reply := Ok(ResetLinkSent);
    } else {
      ReplaceUserKeepsValid(db.users, i, ClearToken(u));
      db.users := db.users[i := ClearToken(u)];
      reply := ErrorReply(500, ResetMailFailed);
    }
  }

  const TokenInvalid := "Password reset token is invalid or has expired"

  /** verifyResetToken: the email of the account holding the token, or None for
      '400 Password reset token is invalid or has expired'. */
  function VerifyResetToken(users: seq<User>, token: string, now: Millis): (r: Option<string>)
    ensures r.None? <==> forall k :: 0 <= k < |users| ==> !HoldsLiveToken(users[k], token, now)
    ensures r.Some? ==> exists k :: 0 <= k < |users| && HoldsLiveToken(users[k], token, now)
                                   && users[k].email == r.value
                                   && forall j :: 0 <= j < k ==> !HoldsLiveToken(users[j], token, now)
  {
    match TokenHolder(users, token, now)
    case None => None
    case Some(i) => Some(users[i].email)
  }

  /** An issued token is accepted for exactly one hour, provided no other account holds the
      same token value. */
  lemma TokenValidForAnHour(users: seq<User>, i: nat, token: string, now: Millis, t: Millis)
    requires i < |users|
    requires forall k :: 0 <= k < |users| && k != i ==> users[k].resetToken != Some(token)
    ensures var users' := users[i := IssueToken(users[i], token, now)];
            VerifyResetToken(users', token, t).Some? <==> t < now + ResetWindow
    ensures var users' := users[i := IssueToken(users[i], token, now)];
            t < now + ResetWindow ==> VerifyResetToken(users', token, t) == Some(users[i].email)
  {
    var users' := users[i := IssueToken(users[i], token, now)];
    assert forall k :: 0 <= k < |users| && k != i ==> !HoldsLiveToken(users'[k], token, t);
    if t < now + ResetWindow {
      assert HoldsLiveToken(users'[i], token, t);
    }
  }

  const FieldsRequired := "Please provide all required fields"
  const PasswordsDiffer := "New password and confirm password do not match"
  const PasswordTooShort := "Password must be at least 8 characters long"
  const PasswordReset := "Password has been reset successfully. You can now login with your new password."

  /** The input checks of resetPassword, before the token is looked up. */
  function ResetInputCheck(newPassword: string, confirmPassword: string): (r: Option<Reply>)
    ensures r.None? <==> newPassword != "" && newPassword == confirmPassword && |newPassword| >= 8
    ensures r.Some? ==> r.value.code == 400 && !r.value.success
  {
    if newPassword == "" || confirmPassword == "" then Some(ErrorReply(400, FieldsRequired))
    else if newPassword != confirmPassword then Some(ErrorReply(400, PasswordsDiffer))
    else if |newPassword| < 8 then Some(ErrorReply(400, PasswordTooShort))
    else None
  }

  /** resetPassword: the input checks, the live-token lookup, then the new hash (newHash,
      computed from newPassword) with the token cleared. */
  method ResetPassword(db: Store, token: string, newPassword: string, confirmPassword: string,
                       newHash: string, now: Millis) returns (reply: Reply)
    requires db.Valid()
    modifies db
    ensures db.Valid()
    ensures db.doctors == old(db.doctors) && db.appointments == old(db.appointments)
    ensures ResetInputCheck(newPassword, confirmPassword).Some? ==>
              reply == ResetInputCheck(newPassword, confirmPassword).value && db.users == old(db.users)
    ensures ResetInputCheck(newPassword, confirmPassword).None? ==>
              if TokenHolder(old(db.users), token, now).None? then
                reply == ErrorReply(400, TokenInvalid) && db.users == old(db.users)
              else
                var i := TokenHolder(old(db.users), token, now).value;
                reply == Ok(PasswordReset)
                && db.users == old(db.users)[i := ClearToken(old(db.users)[i]).(passwordHash := newHash)]
  {
    var check := ResetInputCheck(newPassword, confirmPassword);
    if check.Some? {
      return check.value;
    }
    var found := TokenHolder(db.users, token, now);
    if found.None? {
      return ErrorReply(400, TokenInvalid);
    }
    var i := found.value;
    var u := ClearToken(db.users[i]).(passwordHash := newHash);
    ReplaceUserKeepsValid(db.users, i, u);
    db.users := db.users[i := u];
    reply := Ok(PasswordReset);
  }

  /** A token works once: after a reset through it, no account holds it any more, provided
      the reset account was its only holder. */
  lemma TokenSingleUse(users: seq<User>, i: nat, token: string, newHash: string, t: Millis)
    requires i < |users|
    requires forall k :: 0 <= k < |users| && k != i ==> users[k].resetToken != Some(token)
    ensures VerifyResetToken(users[i := ClearToken(users[i]).(passwordHash := newHash)], token, t).None?
  {
    var users' := users[i := ClearToken(users[i]).(passwordHash := newHash)];
    assert forall k :: 0 <= k < |users'| ==> !HoldsLiveToken(users'[k], token, t);
  }
}
