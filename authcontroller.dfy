/**
 * `AuthController`: the register, login, e-mail verification, password reset and token
 * refresh handlers over the user table. The clock, the current year, the generated user id,
 * the bcrypt salt, the random reset token and whether the school exists are parameters.
 */
module AuthController {
  import opened Wrappers
  import opened Text
  import opened TokenCodec
  import opened Jwt
  import opened Users
  import opened Http

  // ---------------------------------------------------------------------------
  // What the handlers answer

  /** The user as `login` and `verifyEmail` describe it. */
  datatype Profile = Profile(
    id: string,
    email: string,
    fullName: string,
    roomNumber: Option<string>,
    profilePhotoUrl: Option<string>,
    year: Option<string>,
    emergencyContact: Option<string>,
    schoolId: string,
    role: string,
    preferences: UserValue,
    isVerified: bool,
    createdAt: nat)

  function ProfileOf(u: UserRow): Profile {
    Profile(u.id, u.email, u.fullName, u.roomNumber, u.profilePhotoUrl, u.year, u.emergencyContact,
            u.schoolId, u.role, u.preferences, u.isVerified, u.createdAt)
  }

  datatype AuthData =
    | Registered(id: string, email: string, fullName: string, schoolId: string, isVerified: bool,
                 verificationRequired: bool)
    | Session(user: Profile, tokens: TokenPair)
    | Pair(pair: TokenPair)

  /** The payload both tokens are built from. */
  function PayloadOf(u: UserRow): Payload {
    Payload(u.id, u.email, u.role, u.schoolId)
  }

  /** With the default lifetimes, signing never fails. */
  lemma DefaultLifetimesSign(env: Env, p: Payload, nowMs: nat)
    requires env.expiresIn.None? && env.refreshExpiresIn.None?
    ensures GenerateTokens(env, p, nowMs).Ok?
  {
    SecretsConfigured(env);
    AccessLifetime();
    RefreshLifetime();
  }

  // ---------------------------------------------------------------------------
  // register

  /** The fields `register` reads from the body; `None` stands for a missing field. */
  datatype Registration = Registration(
    email: string,
    password: string,
    fullName: string,
    roomNumber: Option<string>,
    graduationYear: Option<int>,
    schoolId: string)

  /** `roomNumber || undefined`: the empty text is falsy. */
  function TextOrUndefined(text: Option<string>): Option<string> {
    if text == Some("") then None else text
  }

  /** `graduationYear || undefined`: zero is falsy. */
  function NumberOrUndefined(n: Option<int>): Option<int> {
    if n == Some(0) then None else n
  }

  function NewUserOf(body: Registration): NewUser {
    NewUser(body.email, body.password, body.fullName, TextOrUndefined(body.roomNumber),
            NumberOrUndefined(body.graduationYear), body.schoolId, None)
  }

  const RegisteredMessage: string := "Registration successful. Your account is ready to use."

  /** `register`'s catch: the duplicate e-mail is 409, anything else 500. */
  function RegisterFailure(message: string): Reply<AuthData> {
    if message == "Email already exists" then Fail(409, "Email already registered")
    else Fail(500, "Registration failed")
  }

  /**
   * `register`: the school check, `create`, then a verification token stored and consumed at
   * once, and the user read back; the reply and the table afterwards.
   */
  function RegisterOutcome(rows: seq<UserRow>, env: Env, body: Registration, schoolKnown: bool,
                           currentYear: int, now: nat, id: string, salt: nat, fault: bool)
    : (Reply<AuthData>, seq<UserRow>)
  {
    if !schoolKnown then (Fail(400, "Invalid school"), rows)
    else
      match CreateOutcome(rows, NewUserOf(body), currentYear, now, id, salt, fault)
      case Err(message) => (RegisterFailure(message), rows)
      case Ok(u) =>
        var created := rows + [u];
        match GenerateVerificationToken(env, body.email, now)
        case Err(message) => (RegisterFailure(message), created)
        case Ok(token) =>
          var verified := MarkVerified(SetVerification(created, body.email, token, now), token, now);
          match FindById(verified, Some(u.id))
          case None => (Fail(500, "Registration failed"), verified)
          case Some(v) =>
            (Reply(201, Success(Some(RegisteredMessage),
                                Some(Registered(v.id, v.email, v.fullName, v.schoolId, v.isVerified, false)))),
             verified)
  }

  /** An unknown school is refused with 400 before anything is stored. */
  lemma RegisterUnknownSchool(rows: seq<UserRow>, env: Env, body: Registration, currentYear: int, now: nat,
                              id: string, salt: nat, fault: bool)
    ensures RegisterOutcome(rows, env, body, false, currentYear, now, id, salt, fault) ==
            (Fail(400, "Invalid school"), rows)
  {
  }

  /**
   * A refused `create` stores nothing: a taken e-mail is 409 'Email already registered', and
   * every other refusal, the room rule's included, is 500 'Registration failed'.
   */
  lemma RegisterRefused(rows: seq<UserRow>, env: Env, body: Registration, currentYear: int, now: nat,
                        id: string, salt: nat, fault: bool)
    requires CreateOutcome(rows, NewUserOf(body), currentYear, now, id, salt, fault).Err?
    ensures var outcome := RegisterOutcome(rows, env, body, true, currentYear, now, id, salt, fault);
            outcome.1 == rows &&
            (outcome.0 == Fail(409, "Email already registered") <==>
               CreateOutcome(rows, NewUserOf(body), currentYear, now, id, salt, fault).error == "Email already exists") &&
            (outcome.0 != Fail(409, "Email already registered") ==> outcome.0 == Fail(500, "Registration failed"))
  {
  }

  /**
   * A registration that `create` accepts ends with the new user stored, verified and without
   * a pending token, the table still valid, and a 201 saying no verification is required.
   */
  lemma RegisterVerifies(rows: seq<UserRow>, env: Env, body: Registration, currentYear: int, now: nat,
                         id: string, salt: nat, fault: bool)
    requires ValidRows(rows)
    requires CreateOutcome(rows, NewUserOf(body), currentYear, now, id, salt, fault).Ok?
    ensures var outcome := RegisterOutcome(rows, env, body, true, currentYear, now, id, salt, fault);
            var after := outcome.1;
            ValidRows(after) && |after| == |rows| + 1 &&
            (forall i :: 0 <= i < |rows| ==> after[i].id == rows[i].id && after[i].email == rows[i].email) &&
            after[|rows|].id == id && after[|rows|].email == ToLower(body.email) &&
            after[|rows|].isVerified && after[|rows|].verificationToken.None? &&
            outcome.0 == Reply(201, Success(Some(RegisteredMessage),
                                            Some(Registered(id, ToLower(body.email), body.fullName, body.schoolId, true, false))))
  {
    var input := NewUserOf(body);
    var u := CreateOutcome(rows, input, currentYear, now, id, salt, fault).value;
    assert u.id == id && u.email == ToLower(body.email) && u.fullName == body.fullName && u.schoolId == body.schoolId;
    CreateThenFind(rows, input, currentYear, now, id, salt, fault);
    var created := rows + [u];
    VerificationTokenVerifies(env, body.email, now, now);
    var token := GenerateVerificationToken(env, body.email, now).value;
    var tokened := SetVerification(created, body.email, token, now);
    var verified := MarkVerified(tokened, token, now);
    assert tokened[|rows|].verificationToken == Some(token);
    assert verified[|rows|].isVerified && verified[|rows|].verificationToken.None?;
    SameKeysValid(created, tokened);
    SameKeysValid(tokened, verified);
    SameKeysIndex(created, tokened, Some(id));
    SameKeysIndex(tokened, verified, Some(id));
    var k := ActiveIndex(created, Some(id)).value;
    assert created[k].id == created[|rows|].id;
    assert k == |rows|;
    assert FindById(verified, Some(id)) == Some(verified[|rows|]);
  }

  // ---------------------------------------------------------------------------
  // login

  const LoginMessage: string := "Login successful"

  /** `login`: one answer for an unknown e-mail and a wrong password, then the tokens. */
  function LoginOutcome(rows: seq<UserRow>, env: Env, email: string, password: string, now: nat): Reply<AuthData> {
    match FindByEmail(rows, email)
    case None => Fail(401, "Invalid credentials")
    case Some(u) =>
      if !PasswordMatches(password, u.passwordHash) then Fail(401, "Invalid credentials")
      else if !u.isActive then Fail(401, "Account deactivated")
      else
        match GenerateTokens(env, PayloadOf(u), now)
        case Err(_) => Fail(500, "Login failed")
        case Ok(pair) => Reply(200, Success(Some(LoginMessage), Some(Session(ProfileOf(u), pair))))
  }

  /**
   * `login` refuses with the same 401 exactly when no active user has the e-mail or the
   * password does not match, never answers 'Account deactivated', and otherwise signs in
   * the user it found unless signing fails.
   */
  lemma LoginDecides(rows: seq<UserRow>, env: Env, email: string, password: string, now: nat)
    ensures var reply := LoginOutcome(rows, env, email, password, now);
            var found := FindByEmail(rows, email);
            (reply == Fail(401, "Invalid credentials") <==>
               found.None? || !PasswordMatches(password, found.value.passwordHash)) &&
            reply != Fail(401, "Account deactivated") &&
            (reply.status == 200 <==>
               found.Some? && PasswordMatches(password, found.value.passwordHash) &&
               GenerateTokens(env, PayloadOf(found.value), now).Ok?) &&
            (reply.status == 200 ==>
               reply.body.data == Some(Session(ProfileOf(found.value), GenerateTokens(env, PayloadOf(found.value), now).value)))
  {
  }

  /** A signed-in user's access token names that user until it expires. */
  lemma LoginTokenNamesUser(rows: seq<UserRow>, env: Env, email: string, password: string, now: nat, later: nat)
    requires LoginOutcome(rows, env, email, password, now).status == 200
    ensures var u := FindByEmail(rows, email).value;
            var tokens := LoginOutcome(rows, env, email, password, now).body.data.value.tokens;
            Seconds(later) < Seconds(now) + TimespanMs(ExpiresIn(env)).value / 1000 ==>
              VerifyToken(env, tokens.token, later).Ok? &&
              VerifyToken(env, tokens.token, later).value.userId == Some(u.id) &&
              VerifyToken(env, tokens.token, later).value.role == Some(u.role)
  {
    var u := FindByEmail(rows, email).value;
    GeneratedTokensVerify(env, PayloadOf(u), now, later);
  }

  // ---------------------------------------------------------------------------
  // verifyEmail

  const VerifiedMessage: string := "Email verified successfully"

  /** `verifyEmail`'s catch. */
  function VerifyEmailFailure(message: string): Reply<AuthData> {
    if ClientHint(message) then Fail(400, message) else Fail(500, "Email verification failed")
  }

  /**
   * `verifyEmail`: the token must verify as an e-mail verification token, then the user
   * holding it is verified and signed in. A missing token fails verification as a malformed
   * one does, which is how the library treats it.
   */
  function VerifyEmailOutcome(rows: seq<UserRow>, env: Env, token: Option<string>, now: nat)
    : (Reply<AuthData>, seq<UserRow>)
  {
    var text := token.GetOr("");
    match VerifyEmailToken(env, text, now)
    case Err(message) => (VerifyEmailFailure(message), rows)
    case Ok(_) =>
      var after := MarkVerified(rows, text, now);
      match VerifyEmailResult(rows, text, now)
      case None => (Fail(400, "Invalid or expired verification token"), after)
      case Some(u) =>
        match GenerateTokens(env, PayloadOf(u), now)
        case Err(message) => (VerifyEmailFailure(message), after)
        case Ok(pair) => (Reply(200, Success(Some(VerifiedMessage), Some(Session(ProfileOf(u), pair)))), after)
  }

  /**
   * The catch is case-sensitive: an expired token gets 400 with the library's message, but a
   * malformed or foreign one ('Invalid verification token') and one of another purpose get
   * 500; none of them changes the table.
   */
  lemma VerifyEmailErrors(rows: seq<UserRow>, env: Env, text: string, now: nat)
    ensures Verify(text, Secret(env), now) == Err(TokenExpiredError) ==>
              VerifyEmailOutcome(rows, env, Some(text), now) == (Fail(400, "Verification token expired"), rows)
    ensures Verify(text, Secret(env), now) == Err(JsonWebTokenError) ==>
              VerifyEmailOutcome(rows, env, Some(text), now) == (Fail(500, "Email verification failed"), rows)
    ensures Verify(text, Secret(env), now).Ok? && Verify(text, Secret(env), now).value.claims.kind != Some(EmailVerificationKind) ==>
              VerifyEmailOutcome(rows, env, Some(text), now) == (Fail(500, "Email verification failed"), rows)
  {
    TokenMessageHints();
  }

  /**
   * A verification token issued for a user who holds it verifies that user within 24 hours;
   * the same token then no longer verifies anyone, so a replay is refused with 400.
   */
  lemma VerifyEmailOnce(rows: seq<UserRow>, env: Env, email: string, issued: nat, now: nat, later: nat)
    requires env.expiresIn.None? && env.refreshExpiresIn.None?
    requires exists u :: u in rows && GenerateVerificationToken(env, email, issued).Ok? &&
                     u.verificationToken == Some(GenerateVerificationToken(env, email, issued).value)
    requires Seconds(now) < Seconds(issued) + 24 * 3600 && Seconds(later) < Seconds(issued) + 24 * 3600
    ensures var token := GenerateVerificationToken(env, email, issued).value;
            var first := VerifyEmailOutcome(rows, env, Some(token), now);
            first.0.status == 200 && first.0.body.Success? && first.0.body.data.Some? &&
            first.0.body.data.value.Session? && first.0.body.data.value.user.isVerified &&
            first.1 == MarkVerified(rows, token, now) &&
            VerifyEmailOutcome(first.1, env, Some(token), later) ==
              (Fail(400, "Invalid or expired verification token"), MarkVerified(first.1, token, later))
  {
    VerificationTokenVerifies(env, email, issued, now);
    VerificationTokenVerifies(env, email, issued, later);
    var token := GenerateVerificationToken(env, email, issued).value;
    assert VerifyEmailToken(env, token, now).Ok? && VerifyEmailToken(env, token, later).Ok?;
    VerifyEmailConsumes(rows, token, now, later);
    var u := VerifyEmailResult(rows, token, now).value;
    DefaultLifetimesSign(env, PayloadOf(u), now);
    var after := MarkVerified(rows, token, now);
    assert VerifyEmailResult(after, token, later).None?;
  }

  // ---------------------------------------------------------------------------
  // forgotPassword and resetPassword

  const ResetLinkMessage: string := "If an account with that email exists, a password reset link has been sent."

  /** One hour, in milliseconds. */
  const ResetWindow: nat := 60 * 60 * 1000

  /** `forgotPassword`: the same answer either way; a known user gets a reset token. */
  function ForgotOutcome(rows: seq<UserRow>, email: string, resetToken: string, now: nat): (Reply<AuthData>, seq<UserRow>) {
    var reply := Reply(200, Success(Some(ResetLinkMessage), None));
    match FindByEmail(rows, email)
    case None => (reply, rows)
    case Some(_) => (reply, SetReset(rows, email, resetToken, now + ResetWindow, now))
  }

  /**
   * The answer does not tell whether the e-mail is known; only a known e-mail changes the
   * table, and then the token opens a reset for exactly one hour.
   */
  lemma ForgotHidesAccount(rows: seq<UserRow>, email: string, resetToken: string, now: nat, later: nat)
    ensures ForgotOutcome(rows, email, resetToken, now).0 == Reply(200, Success(Some(ResetLinkMessage), None))
    ensures FindByEmail(rows, email).None? ==> ForgotOutcome(rows, email, resetToken, now).1 == rows
    ensures FindByEmail(rows, email).Some? ==>
              (later < now + ResetWindow ==> ResetAllowed(ForgotOutcome(rows, email, resetToken, now).1, resetToken, later))
    ensures FindByEmail(rows, email).Some? && (forall u :: u in rows ==> u.resetToken != Some(resetToken)) ==>
              (later >= now + ResetWindow ==> !ResetAllowed(ForgotOutcome(rows, email, resetToken, now).1, resetToken, later))
  {
    if FindByEmail(rows, email).Some? {
      var u := FindByEmail(rows, email).value;
      var i :| 0 <= i < |rows| && rows[i] == u;
      var after := SetReset(rows, email, resetToken, now + ResetWindow, now);
      assert after[i].resetToken == Some(resetToken);
      if forall u :: u in rows ==> u.resetToken != Some(resetToken) {
        forall j | 0 <= j < |after| && after[j].resetToken == Some(resetToken)
          ensures after[j].resetTokenExpires == Some(now + ResetWindow)
        {
          assert rows[j] in rows;
        }
      }
    }
  }

  /** `resetPassword`: 400 exactly when the model's reset answers `null`. */
  function ResetOutcome(rows: seq<UserRow>, token: Option<string>, password: string, salt: nat, now: nat)
    : (Reply<AuthData>, seq<UserRow>)
  {
    match ResetResult(rows, token, password, salt, now)
    case None => (Fail(400, "Invalid or expired reset token"), rows)
    case Some(_) =>
      (Reply(200, Success(Some("Password reset successfully"), None)),
       ApplyReset(rows, token.value, Digest(password, salt), now))
  }

  /**
   * Forgetting and then resetting within the hour works: the reset is accepted, and the
   * new password then passes `login`'s credentials check for that e-mail.
   */
  lemma ForgotThenReset(rows: seq<UserRow>, env: Env, email: string, resetToken: string, now: nat,
                        password: string, salt: nat, later: nat, loginAt: nat)
    requires ValidRows(rows)
    requires FindByEmail(rows, email).Some?
    requires later < now + ResetWindow
    ensures var forgot := ForgotOutcome(rows, email, resetToken, now).1;
            var reset := ResetOutcome(forgot, Some(resetToken), password, salt, later);
            reset.0.status == 200 &&
            LoginOutcome(reset.1, env, email, password, loginAt) != Fail(401, "Invalid credentials")
  {
    ForgotHidesAccount(rows, email, resetToken, now, later);
    var u := FindByEmail(rows, email).value;
    var i :| 0 <= i < |rows| && rows[i] == u;
    var forgot := SetReset(rows, email, resetToken, now + ResetWindow, now);
    assert ForgotOutcome(rows, email, resetToken, now).1 == forgot;
    ResetAccepted(forgot, resetToken, password, salt, later);
    var reset := ApplyReset(forgot, resetToken, Digest(password, salt), later);
    SameKeysValid(rows, forgot);
    SameKeysValid(forgot, reset);
    assert forgot[i].resetToken == Some(resetToken);
    assert reset[i].passwordHash == Digest(password, salt);
    assert reset[i].email == ToLower(email) && reset[i].isActive;
    LoginWithHash(reset, env, email, password, salt, i, loginAt);
  }

  /** A reset the table allows is answered 200 and writes the new password's hash. */
  lemma ResetAccepted(rows: seq<UserRow>, token: string, password: string, salt: nat, now: nat)
    requires ResetAllowed(rows, token, now)
    ensures ResetOutcome(rows, Some(token), password, salt, now) ==
            (Reply(200, Success(Some("Password reset successfully"), None)), ApplyReset(rows, token, Digest(password, salt), now))
  {
    ResetConsumes(rows, Some(token), password, salt, now, now, password);
  }

  /** The active user with an e-mail and the hash of a password passes `login`'s credentials check. */
  lemma LoginWithHash(rows: seq<UserRow>, env: Env, email: string, password: string, salt: nat, i: nat, now: nat)
    requires ValidRows(rows)
    requires i < |rows| && rows[i].isActive && rows[i].email == ToLower(email)
    requires rows[i].passwordHash == Digest(password, salt)
    ensures LoginOutcome(rows, env, email, password, now) != Fail(401, "Invalid credentials")
  {
    FindByEmailAt(rows, i, email);
  }

  // ---------------------------------------------------------------------------
  // refreshToken

  /** `refreshToken`'s catch. */
  function RefreshFailure(message: string): Reply<AuthData> {
    if ClientHint(message) then Fail(401, "Invalid or expired refresh token") else Fail(500, "Token refresh failed")
  }

  /** `refreshToken`: a new pair for the active user the refresh token names. */
  function RefreshOutcome(rows: seq<UserRow>, env: Env, refreshToken: Option<string>, now: nat): Reply<AuthData> {
    if refreshToken.None? || refreshToken.value == "" then Fail(401, "Refresh token required")
    else
      match VerifyRefreshToken(env, refreshToken.value, now)
      case Err(message) => RefreshFailure(message)
      case Ok(subject) =>
        match FindById(rows, subject.userId)
        case None => Fail(401, "Invalid refresh token")
        case Some(u) =>
          match GenerateTokens(env, PayloadOf(u), now)
          case Err(message) => RefreshFailure(message)
          case Ok(pair) => Reply(200, Success(None, Some(Pair(pair))))
  }

  /**
   * A missing or empty token is 401 'Refresh token required'; an expired one is 401, but a
   * malformed or foreign one is 500, because 'Invalid refresh token' fails the
   * case-sensitive check.
   */
  lemma RefreshErrors(rows: seq<UserRow>, env: Env, refreshToken: Option<string>, now: nat)
    ensures refreshToken.None? || refreshToken == Some("") ==>
              RefreshOutcome(rows, env, refreshToken, now) == Fail(401, "Refresh token required")
    ensures refreshToken.Some? && refreshToken.value != "" &&
            Verify(refreshToken.value, RefreshSecret(env), now) == Err(TokenExpiredError) ==>
              RefreshOutcome(rows, env, refreshToken, now) == Fail(401, "Invalid or expired refresh token")
    ensures refreshToken.Some? && refreshToken.value != "" &&
            Verify(refreshToken.value, RefreshSecret(env), now) == Err(JsonWebTokenError) ==>
              RefreshOutcome(rows, env, refreshToken, now) == Fail(500, "Token refresh failed")
  {
    TokenMessageHints();
  }

  /**
   * A refresh token from a pair issued to a user answers, for seven days, a new pair built
   * from that user's current row while the user is active, and 401 'Invalid refresh token'
   * once no active user has the id; an access token offered in its place is refused.
   */
  lemma RefreshIssued(rows: seq<UserRow>, env: Env, p: Payload, issued: nat, now: nat)
    requires env.expiresIn.None? && env.refreshExpiresIn.None?
    requires Seconds(now) < Seconds(issued) + 7 * 86400
    ensures GenerateTokens(env, p, issued).Ok?
    ensures var pair := GenerateTokens(env, p, issued).value;
            var reply := RefreshOutcome(rows, env, Some(pair.refreshToken), now);
            (FindById(rows, Some(p.userId)).Some? ==>
               reply == Reply(200, Success(None, Some(Pair(GenerateTokens(env, PayloadOf(FindById(rows, Some(p.userId)).value), now).value))))) &&
            (FindById(rows, Some(p.userId)).None? ==> reply == Fail(401, "Invalid refresh token"))
    ensures env.jwtSecret.None? && env.refreshSecret.None? ==>
              RefreshOutcome(rows, env, Some(GenerateTokens(env, p, issued).value.token), now) == Fail(500, "Token refresh failed")
  {
    DefaultLifetimesSign(env, p, issued);
    IssuedRefreshAccepted(rows, env, p, issued, now);
    if env.jwtSecret.None? && env.refreshSecret.None? {
      AccessTokenRefused(rows, env, p, issued, now);
    }
  }

  /** For seven days an issued refresh token verifies to its user's id and e-mail. */
  lemma IssuedRefreshVerifies(env: Env, p: Payload, issued: nat, now: nat)
    requires env.expiresIn.None? && env.refreshExpiresIn.None?
    requires Seconds(now) < Seconds(issued) + 7 * 86400
    ensures GenerateTokens(env, p, issued).Ok?
    ensures var pair := GenerateTokens(env, p, issued).value;
            pair.refreshToken != "" &&
            VerifyRefreshToken(env, pair.refreshToken, now) == Ok(Subject(Some(p.userId), Some(p.email)))
  {
    DefaultLifetimesSign(env, p, issued);
    SecretsConfigured(env);
    RefreshLifetime();
    SignedInHeader(RefreshClaims(p), RefreshSecret(env), RefreshExpiresIn(env), issued);
    RefreshTokenVerifies(env, p, issued, now);
  }

  /** The refresh route's answer to an issued refresh token within its seven days. */
  lemma IssuedRefreshAccepted(rows: seq<UserRow>, env: Env, p: Payload, issued: nat, now: nat)
    requires env.expiresIn.None? && env.refreshExpiresIn.None?
    requires Seconds(now) < Seconds(issued) + 7 * 86400
    ensures GenerateTokens(env, p, issued).Ok?
    ensures var pair := GenerateTokens(env, p, issued).value;
            var reply := RefreshOutcome(rows, env, Some(pair.refreshToken), now);
            (FindById(rows, Some(p.userId)).Some? ==>
               reply == Reply(200, Success(None, Some(Pair(GenerateTokens(env, PayloadOf(FindById(rows, Some(p.userId)).value), now).value))))) &&
            (FindById(rows, Some(p.userId)).None? ==> reply == Fail(401, "Invalid refresh token"))
  {
    IssuedRefreshVerifies(env, p, issued, now);
    if FindById(rows, Some(p.userId)).Some? {
      DefaultLifetimesSign(env, PayloadOf(FindById(rows, Some(p.userId)).value), now);
    }
  }

  /**
   * With the built-in secrets an access token offered to the refresh route fails its
   * signature check, and 'Invalid refresh token' makes that a 500.
   */
  lemma AccessTokenRefused(rows: seq<UserRow>, env: Env, p: Payload, issued: nat, now: nat)
    requires env.expiresIn.None? && env.refreshExpiresIn.None?
    requires env.jwtSecret.None? && env.refreshSecret.None?
    ensures GenerateTokens(env, p, issued).Ok?
    ensures RefreshOutcome(rows, env, Some(GenerateTokens(env, p, issued).value.token), now) == Fail(500, "Token refresh failed")
  {
    DefaultLifetimesSign(env, p, issued);
    SecretsConfigured(env);
    SignedInHeader(AccessClaims(p), Secret(env), ExpiresIn(env), issued);
    PairTokensNotInterchangeable(env, p, issued, now);
    InvalidNoHint();
  }

  // ---------------------------------------------------------------------------
  // The handlers on the table

  /** `register`. */
  method Register(users: UserTable, env: Env, body: Registration, schoolKnown: bool, currentYear: int,
                  now: nat, id: string, salt: nat, fault: bool) returns (reply: Reply<AuthData>)
    requires users.Valid()
    modifies users
    ensures users.Valid()
    ensures (reply, users.rows) == RegisterOutcome(old(users.rows), env, body, schoolKnown, currentYear, now, id, salt, fault)
  {
    if !schoolKnown {
      return Fail(400, "Invalid school");
    }
    var created := users.Create(NewUserOf(body), currentYear, now, id, salt, fault);
    if created.Err? {
      return RegisterFailure(created.error);
    }
    var token := GenerateVerificationToken(env, body.email, now);
    if token.Err? {
      return RegisterFailure(token.error);
    }
    users.SetVerificationToken(body.email, token.value, now);
    var _ := users.VerifyEmail(token.value, now);
    var found := FindById(users.rows, Some(created.value.id));
    if found.None? {
      return Fail(500, "Registration failed");
    }
    var v := found.value;
    reply := Reply(201, Success(Some(RegisteredMessage),
                                Some(Registered(v.id, v.email, v.fullName, v.schoolId, v.isVerified, false))));
  }

  /** `login`; the last login is stamped only on success. */
  method Login(users: UserTable, env: Env, email: string, password: string, now: nat) returns (reply: Reply<AuthData>)
    requires users.Valid()
    modifies users
    ensures users.Valid()
    ensures reply == LoginOutcome(old(users.rows), env, email, password, now)
    ensures users.rows == if reply.status == 200 then StampLogin(old(users.rows), FindByEmail(old(users.rows), email).value.id, now)
                          else old(users.rows)
  {
    reply := LoginOutcome(users.rows, env, email, password, now);
    if reply.status == 200 {
      users.UpdateLastLogin(FindByEmail(users.rows, email).value.id, now);
    }
  }

  /** `verifyEmail`. */
  method VerifyEmail(users: UserTable, env: Env, token: Option<string>, now: nat) returns (reply: Reply<AuthData>)
    requires users.Valid()
    modifies users
    ensures users.Valid()
    ensures (reply, users.rows) == VerifyEmailOutcome(old(users.rows), env, token, now)
  {
    var text := token.GetOr("");
    var checked := VerifyEmailToken(env, text, now);
    if checked.Err? {
      return VerifyEmailFailure(checked.error);
    }
    var user := users.VerifyEmail(text, now);
    if user.None? {
      return Fail(400, "Invalid or expired verification token");
    }
    var tokens := GenerateTokens(env, PayloadOf(user.value), now);
    if tokens.Err? {
      return VerifyEmailFailure(tokens.error);
    }
    reply := Reply(200, Success(Some(VerifiedMessage), Some(Session(ProfileOf(user.value), tokens.value))));
  }

  /** `forgotPassword`. */
  method ForgotPassword(users: UserTable, email: string, resetToken: string, now: nat) returns (reply: Reply<AuthData>)
    requires users.Valid()
    modifies users
    ensures users.Valid()
    ensures (reply, users.rows) == ForgotOutcome(old(users.rows), email, resetToken, now)
  {
    reply := Reply(200, Success(Some(ResetLinkMessage), None));
    var user := FindByEmail(users.rows, email);
    if user.Some? {
      users.SetResetToken(email, resetToken, now + ResetWindow, now);
    }
  }

  /** `resetPassword`. */
  method ResetPassword(users: UserTable, token: Option<string>, password: string, salt: nat, now: nat)
    returns (reply: Reply<AuthData>)
    requires users.Valid()
    modifies users
    ensures users.Valid()
    ensures (reply, users.rows) == ResetOutcome(old(users.rows), token, password, salt, now)
  {
    var user := users.ResetPassword(token, password, salt, now);
    if user.None? {
      return Fail(400, "Invalid or expired reset token");
    }
    reply := Reply(200, Success(Some("Password reset successfully"), None));
  }
}
