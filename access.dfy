/**
 * The access-control middleware: `authenticate` and `optionalAuth` attach the signed-in
 * user to the request, `requireRole` and `requireVerification` guard a route, and
 * `rateLimitByUser` passes everything through.
 */
module AccessControl {
  import opened Wrappers
  import opened Text
  import opened TokenCodec
  import opened Jwt
  import opened Users
  import opened Http

  /** A reply without data: every reply of the middleware is an error. */
  datatype Nothing = Nothing

  /** `req.user`: the profile fields only, never the password hash or the tokens. */
  datatype Identity = Identity(
    id: string,
    email: string,
    fullName: string,
    roomNumber: Option<string>,
    profilePhotoUrl: Option<string>,
    year: Option<string>,
    emergencyContact: Option<string>,
    schoolId: string,
    role: string,
    preferences: UserValue,
    isVerified: bool,
    lastLogin: Option<nat>,
    createdAt: nat,
    updatedAt: nat)

  function IdentityOf(u: UserRow): Identity {
    Identity(u.id, u.email, u.fullName, u.roomNumber, u.profilePhotoUrl, u.year, u.emergencyContact,
             u.schoolId, u.role, u.preferences, u.isVerified, u.lastLogin, u.createdAt, u.updatedAt)
  }

  /** The identity carries nothing of the password hash or of the tokens. */
  lemma IdentityOmitsSecrets(u: UserRow, hash: Digest, verification: Option<string>, reset: Option<string>, expires: Option<nat>)
    ensures IdentityOf(u.(passwordHash := hash, verificationToken := verification, resetToken := reset,
                          resetTokenExpires := expires)) == IdentityOf(u)
    ensures IdentityOf(u).id == u.id && IdentityOf(u).role == u.role && IdentityOf(u).isVerified == u.isVerified
  {
  }

  /** What a middleware decides: call `next` (with the user it attached, if any) or answer. */
  datatype Gate = Next(user: Option<Identity>) | Stop(reply: Reply<Nothing>)

  // ---------------------------------------------------------------------------
  // authenticate and optionalAuth

  /**
   * `authenticate`: an empty or missing token is 'Authentication required' and an unknown
   * user 'User not found', both raised as `AppError`s with 401; any other failure, token
   * verification included, is 401 'Invalid or expired token'.
   */
  function AuthenticateGate(rows: seq<UserRow>, env: Env, header: Option<string>, now: nat): Gate {
    var token := GetTokenFromHeader(header);
    if token.None? || token.value == "" then Stop(Fail(401, "Authentication required"))
    else
      match VerifyToken(env, token.value, now)
      case Err(_) => Stop(Fail(401, "Invalid or expired token"))
      case Ok(claims) =>
        match FindById(rows, claims.userId)
        case None => Stop(Fail(401, "User not found"))
        case Some(u) =>
          if !u.isActive then Stop(Fail(401, "Account deactivated"))
          else Next(Some(IdentityOf(u)))
  }

  /**
   * `authenticate` answers only 401s, never 'Account deactivated', and lets a request through
   * exactly when the header carries a token that verifies and names an active user, whose
   * identity it attaches.
   */
  lemma AuthenticateDecides(rows: seq<UserRow>, env: Env, header: Option<string>, now: nat)
    ensures var gate := AuthenticateGate(rows, env, header, now);
            var token := GetTokenFromHeader(header);
            (gate.Stop? ==> gate.reply.status == 401 && gate.reply != Fail(401, "Account deactivated")) &&
            (gate == Stop(Fail(401, "Authentication required")) <==> token.None? || token == Some("")) &&
            (gate.Next? <==>
               token.Some? && token.value != "" && VerifyToken(env, token.value, now).Ok? &&
               FindById(rows, VerifyToken(env, token.value, now).value.userId).Some?) &&
            (gate.Next? ==>
               gate.user == Some(IdentityOf(FindById(rows, VerifyToken(env, token.value, now).value.userId).value)))
  {
  }

  /**
   * The access token of a pair issued to an active user, sent as 'Bearer <token>', lets the
   * user in until the token expires, and is refused with 401 'Invalid or expired token' from
   * then on.
   */
  lemma IssuedTokenAuthenticates(rows: seq<UserRow>, env: Env, u: UserRow, issued: nat, now: nat)
    requires GenerateTokens(env, Payload(u.id, u.email, u.role, u.schoolId), issued).Ok?
    requires FindById(rows, Some(u.id)).Some?
    ensures var token := GenerateTokens(env, Payload(u.id, u.email, u.role, u.schoolId), issued).value.token;
            var gate := AuthenticateGate(rows, env, Some("Bearer " + token), now);
            var expires := Seconds(issued) + TimespanMs(ExpiresIn(env)).value / 1000;
            (Seconds(now) < expires ==> gate == Next(Some(IdentityOf(FindById(rows, Some(u.id)).value)))) &&
            (Seconds(now) >= expires ==> gate == Stop(Fail(401, "Invalid or expired token")))
  {
    var p := Payload(u.id, u.email, u.role, u.schoolId);
    GeneratedTokensVerify(env, p, issued, now);
    IssuedPairInHeader(env, p, issued);
  }

  /** `optionalAuth`: the user, when the header names an active one; every failure is ignored. */
  function OptionalUser(rows: seq<UserRow>, env: Env, header: Option<string>, now: nat): Option<Identity> {
    var token := GetTokenFromHeader(header);
    if token.None? || token.value == "" then None
    else
      match VerifyToken(env, token.value, now)
      case Err(_) => None
      case Ok(claims) =>
        match FindById(rows, claims.userId)
        case Some(u) => if u.isActive then Some(IdentityOf(u)) else None
        case None => None
  }

  /** `optionalAuth` attaches exactly the user `authenticate` would let through. */
  lemma OptionalAgreesWithAuthenticate(rows: seq<UserRow>, env: Env, header: Option<string>, now: nat)
    ensures OptionalUser(rows, env, header, now).Some? <==> AuthenticateGate(rows, env, header, now).Next?
    ensures AuthenticateGate(rows, env, header, now).Next? ==>
              AuthenticateGate(rows, env, header, now).user == OptionalUser(rows, env, header, now)
  {
  }

  // ---------------------------------------------------------------------------
  // Route guards

  /** `requireRole`'s argument: one role or a list of them. */
  datatype Roles = One(role: string) | Many(roles: seq<string>)

  function Allowed(roles: Roles): seq<string> {
    match roles
    case One(r) => [r]
    case Many(rs) => rs
  }

  /** `requireRole(roles)`. */
  function RequireRole(user: Option<Identity>, roles: Roles): Gate {
    if user.None? then Stop(Fail(401, "Authentication required"))
    else if user.value.role !in Allowed(roles) then Stop(Fail(403, "Insufficient permissions"))
    else Next(user)
  }

  /**
   * A request passes `requireRole` exactly when it has a user whose role is listed, and
   * keeps its user; a single role behaves as the one-element list.
   */
  lemma RequireRoleDecides(user: Option<Identity>, roles: Roles)
    ensures RequireRole(user, roles).Next? <==> user.Some? && user.value.role in Allowed(roles)
    ensures RequireRole(user, roles).Next? ==> RequireRole(user, roles).user == user
    ensures user.None? ==> RequireRole(user, roles) == Stop(Fail(401, "Authentication required"))
    ensures user.Some? && user.value.role !in Allowed(roles) ==>
              RequireRole(user, roles) == Stop(Fail(403, "Insufficient permissions"))
    ensures roles.One? ==> RequireRole(user, roles) == RequireRole(user, Many([roles.role]))
  {
  }

  /** `requireVerification`. */
  function RequireVerification(user: Option<Identity>): Gate {
    if user.None? then Stop(Fail(401, "Authentication required"))
    else if !user.value.isVerified then Stop(Fail(403, "Email verification required"))
    else Next(user)
  }

  lemma RequireVerificationDecides(user: Option<Identity>)
    ensures RequireVerification(user).Next? <==> user.Some? && user.value.isVerified
    ensures user.Some? && !user.value.isVerified ==>
              RequireVerification(user) == Stop(Fail(403, "Email verification required"))
    ensures user.None? ==> RequireVerification(user) == Stop(Fail(401, "Authentication required"))
  {
  }

  // ---------------------------------------------------------------------------
  // The request as the middleware changes it

  /** The part of a request and its response the middleware touches. */
  class Exchange {
    var user: Option<Identity>
    var reply: Option<Reply<Nothing>>
    var nextCalls: nat

    constructor ()
      ensures user.None? && reply.None? && nextCalls == 0
    {
      user := None;
      reply := None;
      nextCalls := 0;
    }

    /** `authenticate`: either attaches the user and calls `next` once, or answers. */
    method Authenticate(rows: seq<UserRow>, env: Env, header: Option<string>, now: nat)
      modifies this
      ensures var gate := AuthenticateGate(rows, env, header, now);
              if gate.Next? then user == gate.user && reply == old(reply) && nextCalls == old(nextCalls) + 1
              else user == old(user) && reply == Some(gate.reply) && nextCalls == old(nextCalls)
    {
      var gate := AuthenticateGate(rows, env, header, now);
      if gate.Stop? {
        reply := Some(gate.reply);
        return;
      }
      user := gate.user;
      nextCalls := nextCalls + 1;
    }

    /** `optionalAuth`: never answers, calls `next` exactly once, attaches a found active user. */
    method OptionalAuth(rows: seq<UserRow>, env: Env, header: Option<string>, now: nat)
      modifies this
      ensures reply == old(reply) && nextCalls == old(nextCalls) + 1
      ensures user == if OptionalUser(rows, env, header, now).Some? then OptionalUser(rows, env, header, now) else old(user)
    {
      var found := OptionalUser(rows, env, header, now);
      if found.Some? {
        user := found;
      }
      nextCalls := nextCalls + 1;
    }

    /** `rateLimitByUser`: passes every request through. */
    method RateLimitByUser()
      modifies this
      ensures user == old(user) && reply == old(reply) && nextCalls == old(nextCalls) + 1
    {
      nextCalls := nextCalls + 1;
    }
  }
}
