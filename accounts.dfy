/**
 * User accounts: the `CustomUser` record and its one-time email code, the
 * manager that creates users and superusers, and the account handlers that
 * resend and check that code, reset a password with it, and let a user in.
 * Times are microseconds on one clock (`DateTimeField` resolution); the
 * clock, the random source and the password hasher are parameters.
 */
module Accounts {
  import opened Text
  import opened Models

  const Second: int := 1000000
  /** `timedelta(seconds=60)` */
  const ResendWait: int := 60 * Second
  /** `timedelta(minutes=10)` */
  const OtpLifetime: int := 600 * Second

  /** The form of every code `generate_otp` issues: six decimal digits, the
      first not zero. */
  predicate IsOtpCode(code: string) {
    |code| == 6 && IsNumeral(code) && code[0] != '0'
  }

  /** `str(randint(100000, 999999))` */
  function OtpText(n: nat): (code: string)
    requires 100000 <= n <= 999999
    ensures IsOtpCode(code) && Value(code) == n
  {
    assert Pow10(5) == 100000;
    DecimalLength(n, 5);
    ValueOfDecimal(n);
    Decimal(n)
  }

  class CustomUser {
    var username: string
    var email: string
    var password: string        // the stored hash
    var userType: string        // "Admin" or "User"
    var isStaff: bool
    var isSuperuser: bool
    var isEmailVerified: bool
    var emailOtp: Option<string>
    var lastOtpSent: Option<int>

    /** A new row: `user_type` "User", not verified, no code and no send
        time unless given. */
    constructor (username: string, email: string, password: string, userType: Option<string>,
                 isStaff: bool, isSuperuser: bool)
      ensures this.username == username && this.email == email && this.password == password
      ensures this.userType == (if userType.Some? then userType.value else "User")
      ensures this.isStaff == isStaff && this.isSuperuser == isSuperuser
      ensures !isEmailVerified && emailOtp == None && lastOtpSent == None
    {
      this.username := username;
      this.email := email;
      this.password := password;
      this.userType := if userType.Some? then userType.value else "User";
      this.isStaff := isStaff;
      this.isSuperuser := isSuperuser;
      isEmailVerified := false;
      emailOtp := None;
      lastOtpSent := None;
    }

    /** `generate_otp`: a fresh six-digit code, stamped with the time. */
    method GenerateOtp(now: int)
      modifies this
      ensures emailOtp.Some? && IsOtpCode(emailOtp.value)
      ensures lastOtpSent == Some(now)
      ensures username == old(username) && email == old(email) && password == old(password)
      ensures userType == old(userType) && isStaff == old(isStaff) && isSuperuser == old(isSuperuser)
      ensures isEmailVerified == old(isEmailVerified)
    {
      var n: nat :| 100000 <= n <= 999999;
      emailOtp := Some(OtpText(n));
      lastOtpSent := Some(now);
    }
  }

  // ---------------------------------------------------------------------
  // Manager

  /** The `**extra_fields` the manager reads; `None` is a key not passed.
      A flag is `Some(true)` only when it is the object `True`: the checks
      use `is not True`. */
  datatype Extras = Extras(isStaff: Option<bool>, isSuperuser: Option<bool>, userType: Option<string>)

  datatype CreateError = UsernameMissing | NotSuperuser | NotStaff

  /** `dict.setdefault`: keeps a value that was passed. */
  function SetDefault<T>(v: Option<T>, d: T): (r: Option<T>)
    ensures r.Some? && (v.Some? ==> r == v) && (v.None? ==> r.value == d)
  {
    if v.Some? then v else Some(d)
  }

  /** The extras `create_superuser` passes on after its defaults. */
  function SuperuserExtras(e: Extras): Extras {
    Extras(SetDefault(e.isStaff, true), SetDefault(e.isSuperuser, true), SetDefault(e.userType, "Admin"))
  }

  /** The two checks of `create_superuser`, `is_superuser` first. */
  function SuperuserCheck(e: Extras): (r: Option<CreateError>)
    ensures r != Some(UsernameMissing)
  {
    var f := SuperuserExtras(e);
    if f.isSuperuser != Some(true) then Some(NotSuperuser)
    else if f.isStaff != Some(true) then Some(NotStaff)
    else None
  }

  /** A superuser is refused exactly when a flag was passed as something
      other than `True`; the superuser flag is reported when both are. */
  lemma SuperuserCheckIff(e: Extras)
    ensures SuperuserCheck(e) == None <==> e.isSuperuser != Some(false) && e.isStaff != Some(false)
    ensures SuperuserCheck(e) == Some(NotSuperuser) <==> e.isSuperuser == Some(false)
    ensures SuperuserCheck(e) == Some(NotStaff) <==> e.isSuperuser != Some(false) && e.isStaff == Some(false)
    ensures SuperuserCheck(e) == None ==> SuperuserExtras(e).userType.Some?
  {
    var f := SuperuserExtras(e);
    match e.isSuperuser {
      case None => assert f.isSuperuser == Some(true);
      case Some(b) => assert f.isSuperuser == Some(b);
    }
    match e.isStaff {
      case None => assert f.isStaff == Some(true);
      case Some(b) => assert f.isStaff == Some(b);
    }
  }

  /** `if not username`: no name, or the empty one. */
  predicate HasUsername(username: Option<string>) {
    username.Some? && username.value != ""
  }

  /** `create_user`: refuses a missing or empty username; otherwise a new user
      with the given fields and Django's defaults for the rest. The email is
      stored as given; `normalize_email` is not modelled. */
  method CreateUser(username: Option<string>, email: string, passwordHash: string, e: Extras)
    returns (user: CustomUser?, err: Option<CreateError>)
    ensures err.None? <==> HasUsername(username)
    ensures err.Some? ==> err == Some(UsernameMissing) && user == null
    ensures err.None? ==> user != null && fresh(user)
    ensures err.None? ==> user.username == username.value && user.email == email && user.password == passwordHash
    ensures err.None? ==> user.userType == (if e.userType.Some? then e.userType.value else "User")
    ensures err.None? ==> user.isStaff == (e.isStaff == Some(true)) && user.isSuperuser == (e.isSuperuser == Some(true))
    ensures err.None? ==> !user.isEmailVerified && user.emailOtp == None && user.lastOtpSent == None
  {
    if !HasUsername(username) {
      return null, Some(UsernameMissing);
    }
    user := new CustomUser(username.value, email, passwordHash, e.userType,
                           e.isStaff == Some(true), e.isSuperuser == Some(true));
    err := None;
  }

  /** `create_superuser`: defaults both flags to true and the type to
      "Admin", refuses flags passed as anything but `True`, then creates the
      user as `create_user` does. */
  method CreateSuperuser(username: Option<string>, email: string, passwordHash: string, e: Extras)
    returns (user: CustomUser?, err: Option<CreateError>)
    ensures err == (if SuperuserCheck(e).Some? then SuperuserCheck(e)
                    else if !HasUsername(username) then Some(UsernameMissing) else None)
    ensures err.Some? ==> user == null
    ensures err.None? ==> user != null && fresh(user) && user.isStaff && user.isSuperuser
    ensures err.None? ==> user.userType == SuperuserExtras(e).userType.value
    ensures err.None? ==> user.username == username.value && user.email == email && user.password == passwordHash
    ensures err.None? ==> !user.isEmailVerified
    ensures err.None? ==> user.emailOtp == None && user.lastOtpSent == None
  {
    var check := SuperuserCheck(e);
    if check.Some? {
      return null, check;
    }
    user, err := CreateUser(username, email, passwordHash, SuperuserExtras(e));
  }

  // ---------------------------------------------------------------------
  // Permission predicates

  /** `is_admin` as first defined: an authenticated user of type "Admin". */
  predicate IsAdminByType(authenticated: bool, userType: string) {
    authenticated && userType == "Admin"
  }

  /** `is_admin` as redefined further down the module: an authenticated
      staff user. */
  predicate IsAdminByStaff(authenticated: bool, isStaff: bool) {
    authenticated && isStaff
  }

  /** The two definitions disagree exactly on an authenticated user whose
      type says "Admin" while the staff flag says otherwise, or the reverse:
      a signed-up user whose type was set to "Admin" is not staff, and a
      staff member may keep type "User". */
  lemma AdminPredicatesDiverge(authenticated: bool, userType: string, isStaff: bool)
    ensures IsAdminByType(authenticated, userType) != IsAdminByStaff(authenticated, isStaff)
      <==> authenticated && (userType == "Admin") != isStaff
    ensures IsAdminByType(true, "Admin") && !IsAdminByStaff(true, false)
    ensures !IsAdminByType(true, "User") && IsAdminByStaff(true, true)
  {
  }

  /** Both agree on a user made by `create_superuser` with its defaults. */
  lemma SuperuserDefaultsAreAdminBoth()
    ensures var f := SuperuserExtras(Extras(None, None, None));
      SuperuserCheck(Extras(None, None, None)) == None
      && IsAdminByType(true, f.userType.value) && IsAdminByStaff(true, f.isStaff == Some(true))
  {
  }

  // ---------------------------------------------------------------------
  // Email code handlers

  /** `last_otp_sent and now - last_otp_sent < timedelta(seconds=60)` */
  predicate ResendThrottled(last: Option<int>, now: int) {
    last.Some? && now - last.value < ResendWait
  }

  /** `last_otp_sent and now - last_otp_sent > timedelta(minutes=10)` */
  predicate OtpExpired(last: Option<int>, now: int) {
    last.Some? && now - last.value > OtpLifetime
  }

  /** A code can be resent from the sixtieth second on, and is still good at
      exactly ten minutes and expired a microsecond later; with no send time
      neither rule applies. */
  lemma OtpTimeBoundaries(t: int)
    ensures ResendThrottled(Some(t), t + ResendWait - 1) && !ResendThrottled(Some(t), t + ResendWait)
    ensures !OtpExpired(Some(t), t + OtpLifetime) && OtpExpired(Some(t), t + OtpLifetime + 1)
    ensures forall now :: !ResendThrottled(None, now) && !OtpExpired(None, now)
  {
  }

  datatype ResendOutcome = Throttled | Resent

  /** `resend_email_otp`; the handler reads the clock three times within one
      request, modelled as the single reading `now`. */
  method ResendOtp(user: CustomUser, now: int) returns (r: ResendOutcome)
    modifies user
    ensures r == Throttled <==> ResendThrottled(old(user.lastOtpSent), now)
    ensures r == Throttled ==> user.emailOtp == old(user.emailOtp) && user.lastOtpSent == old(user.lastOtpSent)
    ensures r == Resent ==> user.emailOtp.Some? && IsOtpCode(user.emailOtp.value) && user.lastOtpSent == Some(now)
    ensures user.isEmailVerified == old(user.isEmailVerified) && user.password == old(user.password)
    ensures user.userType == old(user.userType) && user.isStaff == old(user.isStaff) && user.isSuperuser == old(user.isSuperuser)
    ensures user.username == old(user.username) && user.email == old(user.email)
  {
    if ResendThrottled(user.lastOtpSent, now) {
      return Throttled;
    }
    user.GenerateOtp(now);
    user.lastOtpSent := Some(now);
    r := Resent;
  }

  datatype Route = AdminDashboard | UserDashboard

  /** `"admin_dashboard" if user.user_type == "Admin" else "user_dashboard"` */
  function Dashboard(userType: string): (r: Route)
    ensures r == AdminDashboard <==> userType == "Admin"
  {
    if userType == "Admin" then AdminDashboard else UserDashboard
  }

  datatype VerifyOutcome = Expired | Verified(route: Route) | WrongCode

  /** `verify_email_otp`: an expired code is refused whatever was entered;
      otherwise the entered value is compared with the stored one as Python
      compares two optional strings, so a request without the field matches
      a user who has no code. */
  method VerifyEmailOtp(user: CustomUser, entered: Option<string>, now: int) returns (r: VerifyOutcome)
    modifies user
    ensures r == Expired <==> OtpExpired(user.lastOtpSent, now)
    ensures r.Verified? <==> !OtpExpired(user.lastOtpSent, now) && CodeMatches(entered, user.emailOtp)
    ensures r.Verified? ==> user.isEmailVerified && r.route == Dashboard(user.userType)
    ensures !r.Verified? ==> user.isEmailVerified == old(user.isEmailVerified)
    ensures user.emailOtp == old(user.emailOtp) && user.lastOtpSent == old(user.lastOtpSent)
    ensures user.password == old(user.password) && user.userType == old(user.userType)
    ensures user.isStaff == old(user.isStaff) && user.isSuperuser == old(user.isSuperuser)
    ensures user.username == old(user.username) && user.email == old(user.email)
  {
    if OtpExpired(user.lastOtpSent, now) {
      return Expired;
    }
    if CodeMatches(entered, user.emailOtp) {
      user.isEmailVerified := true;
      return Verified(Dashboard(user.userType));
    }
    r := WrongCode;
  }

  /** `verify_email_otp` with the comparison it evidently intends: only an
      issued, non-empty code verifies and logs the user in. */
  method VerifyEmailOtpIssued(user: CustomUser, entered: Option<string>, now: int) returns (r: VerifyOutcome)
    modifies user
    ensures r == Expired <==> OtpExpired(user.lastOtpSent, now)
    ensures r.Verified? <==> !OtpExpired(user.lastOtpSent, now) && IssuedCodeMatches(entered, user.emailOtp)
    ensures r.Verified? ==> user.isEmailVerified && r.route == Dashboard(user.userType)
    ensures r.Verified? ==> user.emailOtp.Some? && user.emailOtp.value != ""
    ensures !r.Verified? ==> user.isEmailVerified == old(user.isEmailVerified)
    ensures user.emailOtp == old(user.emailOtp) && user.lastOtpSent == old(user.lastOtpSent)
    ensures user.password == old(user.password) && user.userType == old(user.userType)
    ensures user.isStaff == old(user.isStaff) && user.isSuperuser == old(user.isSuperuser)
    ensures user.username == old(user.username) && user.email == old(user.email)
  {
    if OtpExpired(user.lastOtpSent, now) {
      return Expired;
    }
    if IssuedCodeMatches(entered, user.emailOtp) {
      user.isEmailVerified := true;
      return Verified(Dashboard(user.userType));
    }
    r := WrongCode;
  }

  /** The comparison `otp == user.email_otp` of the reset and verification
      handlers, on optional strings as Python compares them. */
  predicate CodeMatches(entered: Option<string>, stored: Option<string>) {
    entered == stored
  }

  /** What both handlers evidently mean to accept: the code last issued,
      which must still be a real code. */
  predicate IssuedCodeMatches(entered: Option<string>, stored: Option<string>) {
    stored.Some? && stored.value != "" && entered == stored
  }

  datatype ResetOutcome = PasswordReset | InvalidOtp

  /** `reset_password_otp` as written: no expiry check; on a match the new
      hash is stored and the code is set to "". */
  method ResetPassword(user: CustomUser, entered: Option<string>, newHash: string) returns (r: ResetOutcome)
    modifies user
    ensures r == PasswordReset <==> CodeMatches(entered, old(user.emailOtp))
    ensures r == PasswordReset ==> user.password == newHash && user.emailOtp == Some("")
    ensures r == InvalidOtp ==> user.password == old(user.password) && user.emailOtp == old(user.emailOtp)
    ensures user.lastOtpSent == old(user.lastOtpSent) && user.isEmailVerified == old(user.isEmailVerified)
    ensures user.username == old(user.username) && user.email == old(user.email)
    ensures user.userType == old(user.userType) && user.isStaff == old(user.isStaff) && user.isSuperuser == old(user.isSuperuser)
  {
    if CodeMatches(entered, user.emailOtp) {
      user.password := newHash;
      user.emailOtp := Some("");
      return PasswordReset;
    }
    r := InvalidOtp;
  }

  /** The reset with the comparison it evidently intends. */
  method ResetPasswordIssued(user: CustomUser, entered: Option<string>, newHash: string) returns (r: ResetOutcome)
    modifies user
    ensures r == PasswordReset <==> IssuedCodeMatches(entered, old(user.emailOtp))
    ensures r == PasswordReset ==> user.password == newHash && user.emailOtp == Some("")
    ensures r == InvalidOtp ==> user.password == old(user.password) && user.emailOtp == old(user.emailOtp)
    ensures user.lastOtpSent == old(user.lastOtpSent) && user.isEmailVerified == old(user.isEmailVerified)
    ensures user.username == old(user.username) && user.email == old(user.email)
    ensures user.userType == old(user.userType) && user.isStaff == old(user.isStaff) && user.isSuperuser == old(user.isSuperuser)
  {
    if IssuedCodeMatches(entered, user.emailOtp) {
      user.password := newHash;
      user.emailOtp := Some("");
      return PasswordReset;
    }
    r := InvalidOtp;
  }

  /** As written, the cleared code is itself a code: after any successful
      reset, posting an empty code resets the password again, and a user
      who never had a code is reset by a request without the field. */
  lemma ResetReplays()
    ensures CodeMatches(Some(""), Some(""))
    ensures CodeMatches(None, None)
  {
  }

  /** With the intended comparison nothing is accepted once the code is
      cleared or when none was issued, and an issued code is accepted
      exactly as before. */
  lemma ResetIssuedNoReplay(entered: Option<string>, stored: Option<string>)
    ensures !IssuedCodeMatches(entered, Some("")) && !IssuedCodeMatches(entered, None)
    ensures stored.Some? && IsOtpCode(stored.value) ==>
      (IssuedCodeMatches(entered, stored) <==> CodeMatches(entered, stored))
  {
  }

  /** Two resets in a row with the handler as written: the second one, made
      with the empty code, succeeds as well. */
  method ResetTwice(user: CustomUser, entered: Option<string>, first: string, second: string)
    returns (r1: ResetOutcome, r2: ResetOutcome)
    modifies user
    requires CodeMatches(entered, user.emailOtp)
    ensures r1 == PasswordReset && r2 == PasswordReset && user.password == second
  {
    r1 := ResetPassword(user, entered, first);
    r2 := ResetPassword(user, Some(""), second);
  }

  /** Two resets in a row with the intended comparison: the replay fails. */
  method ResetTwiceIssued(user: CustomUser, entered: Option<string>, first: string, second: string)
    returns (r1: ResetOutcome, r2: ResetOutcome)
    modifies user
    requires IssuedCodeMatches(entered, user.emailOtp)
    ensures r1 == PasswordReset && r2 == InvalidOtp && user.password == first
  {
    r1 := ResetPasswordIssued(user, entered, first);
    r2 := ResetPasswordIssued(user, Some(""), second);
  }

  /** As written, a reset leaves the empty code behind, and the
      verification handler accepts it and logs the user in: whoever posts
      an empty `otp` within ten minutes of the reset code being sent gets
      that user's session without knowing any password. */
  method VerifyAfterReset(user: CustomUser, entered: Option<string>, newHash: string, now: int)
    returns (r1: ResetOutcome, r2: VerifyOutcome)
    modifies user
    requires CodeMatches(entered, user.emailOtp) && !OtpExpired(user.lastOtpSent, now)
    ensures r1 == PasswordReset && r2 == Verified(Dashboard(user.userType))
    ensures user.isEmailVerified && user.password == newHash
  {
    r1 := ResetPassword(user, entered, newHash);
    r2 := VerifyEmailOtp(user, Some(""), now);
  }

  /** With both comparisons corrected, the empty code left by the reset is
      refused by the verification handler. */
  method VerifyAfterResetIssued(user: CustomUser, entered: Option<string>, newHash: string, now: int)
    returns (r1: ResetOutcome, r2: VerifyOutcome)
    modifies user
    requires IssuedCodeMatches(entered, user.emailOtp) && !OtpExpired(user.lastOtpSent, now)
    ensures r1 == PasswordReset && r2 == WrongCode
    ensures user.isEmailVerified == old(user.isEmailVerified) && user.password == newHash
  {
    r1 := ResetPasswordIssued(user, entered, newHash);
    r2 := VerifyEmailOtpIssued(user, Some(""), now);
  }

  /** As written, a superuser made by `create_superuser` has no code and no
      send time, so a verification request without the `otp` field matches,
      never expires, and logs in as that superuser. */
  method SuperuserVerifiedWithoutCode(username: Option<string>, email: string, passwordHash: string,
                                      e: Extras, now: int)
    returns (user: CustomUser?, r: VerifyOutcome)
    requires HasUsername(username) && SuperuserCheck(e).None?
    ensures user != null && user.isSuperuser && user.isEmailVerified
    ensures r == Verified(Dashboard(user.userType))
  {
    var err;
    user, err := CreateSuperuser(username, email, passwordHash, e);
    r := VerifyEmailOtp(user, None, now);
  }

  /** With the intended comparison that request is refused. */
  method SuperuserRefusedWithoutCode(username: Option<string>, email: string, passwordHash: string,
                                     e: Extras, now: int)
    returns (user: CustomUser?, r: VerifyOutcome)
    requires HasUsername(username) && SuperuserCheck(e).None?
    ensures user != null && user.isSuperuser && !user.isEmailVerified
    ensures r == WrongCode
  {
    var err;
    user, err := CreateSuperuser(username, email, passwordHash, e);
    r := VerifyEmailOtpIssued(user, None, now);
  }

  // ---------------------------------------------------------------------
  // Login

  datatype LoginOutcome = BadCredentials | NotVerified | LoggedIn(route: Route)

  /** `login_view`: the credential check is Django's `AuthenticationForm`
      and is the parameter `credentialsOk`; a user with unverified email is
      turned away, and the rest go to the dashboard of their type. */
  function Login(credentialsOk: bool, isEmailVerified: bool, userType: string): (r: LoginOutcome)
    ensures r.LoggedIn? <==> credentialsOk && isEmailVerified
    ensures r == NotVerified <==> credentialsOk && !isEmailVerified
    ensures r.LoggedIn? ==> (r.route == AdminDashboard <==> userType == "Admin")
  {
    if !credentialsOk then BadCredentials
    else if !isEmailVerified then NotVerified
    else LoggedIn(Dashboard(userType))
  }
}
