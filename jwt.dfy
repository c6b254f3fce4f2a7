/**
 * `JWTUtil`: issuing and checking the access, refresh, e-mail verification and password
 * reset tokens, and reading the bearer token out of an `Authorization` header.
 * The clock is a parameter (`nowMs`, milliseconds since the epoch); the environment
 * variables are the `Env` record.
 */
module Jwt {
  import opened Wrappers
  import opened Text
  import opened TokenCodec

  // ---------------------------------------------------------------------------
  // Configuration

  /** `JWT_SECRET`, `JWT_REFRESH_SECRET`, `JWT_EXPIRES_IN`, `JWT_REFRESH_EXPIRES_IN`. */
  datatype Env = Env(
    jwtSecret: Option<string>,
    refreshSecret: Option<string>,
    expiresIn: Option<string>,
    refreshExpiresIn: Option<string>)

  const DefaultSecret: string := "super-secret-jwt-key-for-dormlife"
  const DefaultRefreshSecret: string := "super-secret-refresh-key-for-dormlife"
  const DefaultExpiresIn: string := "15m"
  const DefaultRefreshExpiresIn: string := "7d"
  const VerificationLifetime: string := "24h"
  const ResetLifetime: string := "1h"
  const EmailVerificationKind: string := "email_verification"
  const PasswordResetKind: string := "password_reset"

  /** `value || fallback`: an unset or empty variable falls back. */
  function OrElse(value: Option<string>, fallback: string): string {
    if value.Some? && value.value != "" then value.value else fallback
  }

  function Secret(env: Env): string { OrElse(env.jwtSecret, DefaultSecret) }
  function RefreshSecret(env: Env): string { OrElse(env.refreshSecret, DefaultRefreshSecret) }
  function ExpiresIn(env: Env): string { OrElse(env.expiresIn, DefaultExpiresIn) }
  function RefreshExpiresIn(env: Env): string { OrElse(env.refreshExpiresIn, DefaultRefreshExpiresIn) }

  /** The secrets are never empty, and the built-in ones differ. */
  lemma SecretsConfigured(env: Env)
    ensures Secret(env) != "" && RefreshSecret(env) != ""
    ensures env.jwtSecret.None? && env.refreshSecret.None? ==> Secret(env) != RefreshSecret(env)
    ensures env.expiresIn.None? ==> ExpiresIn(env) == "15m"
    ensures env.refreshExpiresIn.None? ==> RefreshExpiresIn(env) == "7d"
  {
    assert DefaultSecret[13] != DefaultRefreshSecret[13];
  }

  // ---------------------------------------------------------------------------
  // Lifetimes (`expiresIn` strings)

  /** Milliseconds per unit; the empty unit is a bare number of milliseconds. */
  function UnitMs(unit: string): Option<nat> {
    if unit == "" || unit == "ms" then Some(1)
    else if unit == "s" then Some(1000)
    else if unit == "m" then Some(60_000)
    else if unit == "h" then Some(3_600_000)
    else if unit == "d" then Some(86_400_000)
    else if unit == "w" then Some(604_800_000)
    else None
  }

  /** A lifetime such as `15m` in milliseconds; `None` when it is not one. */
  function TimespanMs(span: string): (r: Option<nat>)
    ensures r.Some? ==> |DigitPrefix(span)| > 0
  {
    var ds := DigitPrefix(span);
    if |ds| == 0 then None
    else
      match UnitMs(span[|ds|..])
      case None => None
      case Some(unit) => Some(DigitsValue(ds) * unit)
  }

  lemma {:induction false} TimespanOf(n: nat, unit: string, perUnit: nat)
    requires unit == [] || !IsDigit(unit[0])
    requires UnitMs(unit) == Some(perUnit)
    ensures TimespanMs(NatToString(n) + unit) == Some(n * perUnit)
  {
    var ds := NatToString(n);
    DigitPrefixOf(ds, unit);
    assert (ds + unit)[|ds|..] == unit;
  }

  /** The access tokens' default lifetime: 15 minutes. */
  lemma AccessLifetime()
    ensures TimespanMs(DefaultExpiresIn) == Some(15 * 60_000)
  {
    assert NatToString(15) == "15";
    TimespanOf(15, "m", 60_000);
    assert DefaultExpiresIn == NatToString(15) + "m";
  }

  /** The refresh tokens' default lifetime: 7 days. */
  lemma RefreshLifetime()
    ensures TimespanMs(DefaultRefreshExpiresIn) == Some(7 * 86_400_000)
  {
    assert NatToString(7) == "7";
    TimespanOf(7, "d", 86_400_000);
    assert DefaultRefreshExpiresIn == NatToString(7) + "d";
  }

  /** Verification tokens live 24 hours. */
  lemma VerificationLifetimeMs()
    ensures TimespanMs(VerificationLifetime) == Some(24 * 3_600_000)
  {
    assert NatToString(24) == "24";
    TimespanOf(24, "h", 3_600_000);
    assert VerificationLifetime == NatToString(24) + "h";
  }

  /** Reset tokens live one hour. */
  lemma ResetLifetimeMs()
    ensures TimespanMs(ResetLifetime) == Some(3_600_000)
  {
    assert NatToString(1) == "1";
    TimespanOf(1, "h", 3_600_000);
    assert ResetLifetime == NatToString(1) + "h";
  }

  // ---------------------------------------------------------------------------
  // The signing library

  /** The `name` of an error `jwt.verify` throws. */
  datatype LibError = JsonWebTokenError | NotBeforeError | TokenExpiredError

  /** Seconds since the epoch, as the library reads the clock. */
  function Seconds(nowMs: nat): nat { nowMs / 1000 }

  /** The token `jwt.sign` makes for a lifetime of `ms` milliseconds: no `nbf`, `exp` from `iat`. */
  function SignedToken(claims: Claims, secret: string, ms: nat, nowMs: nat): Token {
    var iat := Seconds(nowMs);
    Token(secret, claims, iat, Some(iat + ms / 1000), None)
  }

  /** `jwt.sign(claims, secret, { expiresIn })`; `None` when it throws. */
  function Sign(claims: Claims, secret: string, expiresIn: string, nowMs: nat): (r: Option<string>)
    ensures r.Some? <==> secret != "" && TimespanMs(expiresIn).Some?
  {
    match TimespanMs(expiresIn)
    case None => None
    case Some(ms) =>
      if secret == "" then None
      else Some(Encode(SignedToken(claims, secret, ms, nowMs)))
  }

  /**
   * `jwt.verify(text, secret)`: the signature first, then `nbf`, then `exp`
   * (a token is expired from its `exp` second on).
   */
  function Verify(text: string, secret: string, nowMs: nat): Result<Token, LibError> {
    var clock := Seconds(nowMs);
    match Decode(text)
    case None => Err(JsonWebTokenError)
    case Some(t) =>
      if t.secret != secret || secret == "" then Err(JsonWebTokenError)
      else if t.nbf.Some? && t.nbf.value > clock then Err(NotBeforeError)
      else if t.exp.Some? && clock >= t.exp.value then Err(TokenExpiredError)
      else Ok(t)
  }

  /** A token signed with a secret verifies with it until it expires, and then only fails as expired. */
  lemma VerifySigned(claims: Claims, secret: string, expiresIn: string, nowMs: nat, laterMs: nat)
    requires Sign(claims, secret, expiresIn, nowMs).Some?
    ensures var ms := TimespanMs(expiresIn).value;
            var text := Sign(claims, secret, expiresIn, nowMs).value;
            var exp := Seconds(nowMs) + ms / 1000;
            Decode(text) == Some(Token(secret, claims, Seconds(nowMs), Some(exp), None)) &&
            (Seconds(laterMs) < exp ==> Verify(text, secret, laterMs).Ok? && Verify(text, secret, laterMs).value.claims == claims) &&
            (Seconds(laterMs) >= exp ==> Verify(text, secret, laterMs) == Err(TokenExpiredError))
  {
    var t := SignedToken(claims, secret, TimespanMs(expiresIn).value, nowMs);
    SignedDecodes(claims, secret, expiresIn, nowMs);
    VerifyDecoded(Sign(claims, secret, expiresIn, nowMs).value, secret, t, laterMs);
  }

  /** A signed text reads back as the token it was made from. */
  lemma SignedDecodes(claims: Claims, secret: string, expiresIn: string, nowMs: nat)
    requires Sign(claims, secret, expiresIn, nowMs).Some?
    ensures Decode(Sign(claims, secret, expiresIn, nowMs).value) ==
            Some(SignedToken(claims, secret, TimespanMs(expiresIn).value, nowMs))
  {
    DecodeEncode(SignedToken(claims, secret, TimespanMs(expiresIn).value, nowMs));
  }

  /** A well-signed token without `nbf` passes `jwt.verify` exactly before its `exp` second. */
  lemma VerifyDecoded(text: string, secret: string, t: Token, laterMs: nat)
    requires Decode(text) == Some(t)
    requires t.secret == secret && secret != "" && t.nbf.None? && t.exp.Some?
    ensures Seconds(laterMs) < t.exp.value ==> Verify(text, secret, laterMs) == Ok(t)
    ensures Seconds(laterMs) >= t.exp.value ==> Verify(text, secret, laterMs) == Err(TokenExpiredError)
  {
  }

  /** A token signed with one secret never verifies with another. */
  lemma VerifyOtherSecret(claims: Claims, secret: string, expiresIn: string, nowMs: nat, other: string, laterMs: nat)
    requires Sign(claims, secret, expiresIn, nowMs).Some?
    requires other != secret
    ensures Verify(Sign(claims, secret, expiresIn, nowMs).value, other, laterMs) == Err(JsonWebTokenError)
  {
    SignedDecodes(claims, secret, expiresIn, nowMs);
  }

  // ---------------------------------------------------------------------------
  // `JWTUtil`

  /** `JWTPayload` as the controllers build it. */
  datatype Payload = Payload(userId: string, email: string, role: string, schoolId: string)

  datatype TokenPair = TokenPair(token: string, refreshToken: string)

  /** `{ userId, email }` as the refresh and reset checks return it; either may be missing. */
  datatype Subject = Subject(userId: Option<string>, email: Option<string>)

  /** The access token carries the whole payload. */
  function AccessClaims(p: Payload): Claims {
    Claims(Some(p.userId), Some(p.email), Some(p.role), Some(p.schoolId), None, None)
  }

  /** The refresh token carries only the user's id and e-mail. */
  function RefreshClaims(p: Payload): Claims {
    Claims(Some(p.userId), Some(p.email), None, None, None, None)
  }

  function VerificationClaims(email: string, nowMs: nat): Claims {
    Claims(None, Some(email), None, None, Some(EmailVerificationKind), Some(nowMs))
  }

  function ResetClaims(userId: string, email: string, nowMs: nat): Claims {
    Claims(Some(userId), Some(email), None, None, Some(PasswordResetKind), Some(nowMs))
  }

  /** `generateTokens`: both tokens, or 'Token generation failed' when either signing throws. */
  function GenerateTokens(env: Env, p: Payload, nowMs: nat): Result<TokenPair, string> {
    var token := Sign(AccessClaims(p), Secret(env), ExpiresIn(env), nowMs);
    var refresh := Sign(RefreshClaims(p), RefreshSecret(env), RefreshExpiresIn(env), nowMs);
    if token.None? || refresh.None? then Err("Token generation failed")
    else Ok(TokenPair(token.value, refresh.value))
  }

  /** Renames a library error the way every `verify*` method's catch block does. */
  function Rename(e: LibError, expired: string, invalid: string, failed: string): string {
    match e
    case TokenExpiredError => expired
    case JsonWebTokenError => invalid
    case NotBeforeError => failed
  }

  /** `verifyToken`: the decoded claims, whatever their `type`. */
  function VerifyToken(env: Env, text: string, nowMs: nat): Result<Claims, string> {
    match Verify(text, Secret(env), nowMs)
    case Ok(t) => Ok(t.claims)
    case Err(e) => Err(Rename(e, "Token expired", "Invalid token", "Token verification failed"))
  }

  /** `verifyRefreshToken`: only the id and e-mail of the decoded token. */
  function VerifyRefreshToken(env: Env, text: string, nowMs: nat): Result<Subject, string> {
    match Verify(text, RefreshSecret(env), nowMs)
    case Ok(t) => Ok(Subject(t.claims.userId, t.claims.email))
    case Err(e) => Err(Rename(e, "Refresh token expired", "Invalid refresh token", "Refresh token verification failed"))
  }

  /** `generateVerificationToken`: a 24-hour token carrying the e-mail. */
  function GenerateVerificationToken(env: Env, email: string, nowMs: nat): Result<string, string> {
    match Sign(VerificationClaims(email, nowMs), Secret(env), VerificationLifetime, nowMs)
    case None => Err("Token generation failed")
    case Some(text) => Ok(text)
  }

  /**
   * `verifyEmailToken`: the e-mail of a verification token. A token of another `type` is
   * rejected inside the `try`, so its error is re-wrapped as 'Token verification failed'.
   */
  function VerifyEmailToken(env: Env, text: string, nowMs: nat): Result<Option<string>, string> {
    match Verify(text, Secret(env), nowMs)
    case Err(e) => Err(Rename(e, "Verification token expired", "Invalid verification token", "Token verification failed"))
    case Ok(t) =>
      if t.claims.kind != Some(EmailVerificationKind) then Err("Token verification failed")
      else Ok(t.claims.email)
  }

  /** `generatePasswordResetToken`: a one-hour token carrying the id and e-mail. */
  function GeneratePasswordResetToken(env: Env, userId: string, email: string, nowMs: nat): Result<string, string> {
    match Sign(ResetClaims(userId, email, nowMs), Secret(env), ResetLifetime, nowMs)
    case None => Err("Token generation failed")
    case Some(text) => Ok(text)
  }

  /** `verifyPasswordResetToken`, with the same `type` check as `VerifyEmailToken`. */
  function VerifyPasswordResetToken(env: Env, text: string, nowMs: nat): Result<Subject, string> {
    match Verify(text, Secret(env), nowMs)
    case Err(e) => Err(Rename(e, "Reset token expired", "Invalid reset token", "Token verification failed"))
    case Ok(t) =>
      if t.claims.kind != Some(PasswordResetKind) then Err("Token verification failed")
      else Ok(Subject(t.claims.userId, t.claims.email))
  }

  /** `getTokenFromHeader`: the text after 'Bearer ', when the header is exactly two words. */
  function GetTokenFromHeader(header: Option<string>): Option<string> {
    if header.None? || header.value == "" then None
    else
      var parts := Split(header.value, ' ');
      if |parts| != 2 || parts[0] != "Bearer" then None
      else Some(parts[1])
  }

  // ---------------------------------------------------------------------------
  // Properties

  /**
   * A header yields a token exactly when it is 'Bearer ' followed by a text without spaces,
   * the empty text included; so a missing or empty header, another scheme, a lower-case
   * 'bearer' and an extra space all yield nothing.
   */
  lemma HeaderToken(header: Option<string>, token: string)
    ensures GetTokenFromHeader(header) == Some(token) <==> header == Some("Bearer " + token) && ' ' !in token
  {
    if header == Some("Bearer " + token) && ' ' !in token {
      assert "Bearer " + token == "Bearer" + [' '] + token;
      SplitAtFirst("Bearer", ' ', token);
      SplitWithout(token, ' ');
    }
    if GetTokenFromHeader(header) == Some(token) {
      var parts := Split(header.value, ' ');
      assert parts[0] == "Bearer" && parts[1] == token;
      assert ' ' !in parts[1];
      assert Join(parts[1..], ' ') == token;
      assert header.value == Join(parts, ' ') == "Bearer" + [' '] + token;
      assert "Bearer" + [' '] + token == "Bearer " + token;
    }
  }

  /** Every token the backend issues survives a round trip through a bearer header. */
  lemma IssuedTokenInHeader(t: Token)
    ensures GetTokenFromHeader(Some("Bearer " + Encode(t))) == Some(Encode(t))
  {
    HeaderToken(Some("Bearer " + Encode(t)), Encode(t));
  }

  /** Both tokens of an issued pair are non-empty and travel intact in a bearer header. */
  lemma IssuedPairInHeader(env: Env, p: Payload, nowMs: nat)
    requires GenerateTokens(env, p, nowMs).Ok?
    ensures var pair := GenerateTokens(env, p, nowMs).value;
            pair.token != "" && GetTokenFromHeader(Some("Bearer " + pair.token)) == Some(pair.token) &&
            pair.refreshToken != "" && GetTokenFromHeader(Some("Bearer " + pair.refreshToken)) == Some(pair.refreshToken)
  {
    SignedInHeader(AccessClaims(p), Secret(env), ExpiresIn(env), nowMs);
    SignedInHeader(RefreshClaims(p), RefreshSecret(env), RefreshExpiresIn(env), nowMs);
  }

  lemma SignedInHeader(claims: Claims, secret: string, expiresIn: string, nowMs: nat)
    requires Sign(claims, secret, expiresIn, nowMs).Some?
    ensures var text := Sign(claims, secret, expiresIn, nowMs).value;
            text != "" && GetTokenFromHeader(Some("Bearer " + text)) == Some(text)
  {
    IssuedTokenInHeader(SignedToken(claims, secret, TimespanMs(expiresIn).value, nowMs));
  }

  /**
   * An issued pair: the access token verifies to the whole payload and the refresh token to
   * the id and e-mail alone, each until its own expiry and as expired from then on.
   */
  lemma GeneratedTokensVerify(env: Env, p: Payload, nowMs: nat, laterMs: nat)
    requires GenerateTokens(env, p, nowMs).Ok?
    ensures var pair := GenerateTokens(env, p, nowMs).value;
            var accessExp := Seconds(nowMs) + TimespanMs(ExpiresIn(env)).value / 1000;
            var refreshExp := Seconds(nowMs) + TimespanMs(RefreshExpiresIn(env)).value / 1000;
            (Seconds(laterMs) < accessExp ==> VerifyToken(env, pair.token, laterMs) == Ok(AccessClaims(p))) &&
            (Seconds(laterMs) >= accessExp ==> VerifyToken(env, pair.token, laterMs) == Err("Token expired")) &&
            (Seconds(laterMs) < refreshExp ==>
              VerifyRefreshToken(env, pair.refreshToken, laterMs) == Ok(Subject(Some(p.userId), Some(p.email)))) &&
            (Seconds(laterMs) >= refreshExp ==>
              VerifyRefreshToken(env, pair.refreshToken, laterMs) == Err("Refresh token expired"))
  {
    AccessTokenVerifies(env, p, nowMs, laterMs);
    RefreshTokenVerifies(env, p, nowMs, laterMs);
  }

  lemma AccessTokenVerifies(env: Env, p: Payload, nowMs: nat, laterMs: nat)
    requires Sign(AccessClaims(p), Secret(env), ExpiresIn(env), nowMs).Some?
    ensures var text := Sign(AccessClaims(p), Secret(env), ExpiresIn(env), nowMs).value;
            var exp := Seconds(nowMs) + TimespanMs(ExpiresIn(env)).value / 1000;
            (Seconds(laterMs) < exp ==> VerifyToken(env, text, laterMs) == Ok(AccessClaims(p))) &&
            (Seconds(laterMs) >= exp ==> VerifyToken(env, text, laterMs) == Err("Token expired"))
  {
    var t := SignedToken(AccessClaims(p), Secret(env), TimespanMs(ExpiresIn(env)).value, nowMs);
    SignedDecodes(AccessClaims(p), Secret(env), ExpiresIn(env), nowMs);
    VerifyDecoded(Sign(AccessClaims(p), Secret(env), ExpiresIn(env), nowMs).value, Secret(env), t, laterMs);
  }

  lemma RefreshTokenVerifies(env: Env, p: Payload, nowMs: nat, laterMs: nat)
    requires Sign(RefreshClaims(p), RefreshSecret(env), RefreshExpiresIn(env), nowMs).Some?
    ensures var text := Sign(RefreshClaims(p), RefreshSecret(env), RefreshExpiresIn(env), nowMs).value;
            var exp := Seconds(nowMs) + TimespanMs(RefreshExpiresIn(env)).value / 1000;
            (Seconds(laterMs) < exp ==> VerifyRefreshToken(env, text, laterMs) == Ok(Subject(Some(p.userId), Some(p.email)))) &&
            (Seconds(laterMs) >= exp ==> VerifyRefreshToken(env, text, laterMs) == Err("Refresh token expired"))
  {
    var t := SignedToken(RefreshClaims(p), RefreshSecret(env), TimespanMs(RefreshExpiresIn(env)).value, nowMs);
    SignedDecodes(RefreshClaims(p), RefreshSecret(env), RefreshExpiresIn(env), nowMs);
    VerifyDecoded(Sign(RefreshClaims(p), RefreshSecret(env), RefreshExpiresIn(env), nowMs).value, RefreshSecret(env), t, laterMs);
  }

  /** With distinct secrets, neither token of a pair passes for the other. */
  lemma PairTokensNotInterchangeable(env: Env, p: Payload, nowMs: nat, laterMs: nat)
    requires GenerateTokens(env, p, nowMs).Ok?
    requires Secret(env) != RefreshSecret(env)
    ensures VerifyToken(env, GenerateTokens(env, p, nowMs).value.refreshToken, laterMs) == Err("Invalid token")
    ensures VerifyRefreshToken(env, GenerateTokens(env, p, nowMs).value.token, laterMs) == Err("Invalid refresh token")
  {
    VerifyOtherSecret(RefreshClaims(p), RefreshSecret(env), RefreshExpiresIn(env), nowMs, Secret(env), laterMs);
    VerifyOtherSecret(AccessClaims(p), Secret(env), ExpiresIn(env), nowMs, RefreshSecret(env), laterMs);
  }

  /** `verifyToken` says 'Invalid token' exactly for a malformed text or a foreign signature. */
  lemma InvalidTokenExactly(env: Env, text: string, nowMs: nat)
    ensures VerifyToken(env, text, nowMs) == Err("Invalid token") <==>
            Decode(text).None? || Decode(text).value.secret != Secret(env)
  {
    SecretsConfigured(env);
  }

  /** A verification token yields its e-mail for 24 hours and is expired from then on. */
  lemma VerificationTokenVerifies(env: Env, email: string, nowMs: nat, laterMs: nat)
    ensures GenerateVerificationToken(env, email, nowMs).Ok?
    ensures var result := VerifyEmailToken(env, GenerateVerificationToken(env, email, nowMs).value, laterMs);
            if Seconds(laterMs) < Seconds(nowMs) + 24 * 3600 then result == Ok(Some(email))
            else result == Err("Verification token expired")
  {
    SecretsConfigured(env);
    VerificationLifetimeMs();
    VerifySigned(VerificationClaims(email, nowMs), Secret(env), VerificationLifetime, nowMs, laterMs);
  }

  lemma ExpiredResetToken(env: Env, text: string, nowMs: nat)
    requires Verify(text, Secret(env), nowMs) == Err(TokenExpiredError)
    ensures VerifyPasswordResetToken(env, text, nowMs) == Err("Reset token expired")
  {
  }

  /** A reset token yields its id and e-mail for one hour and is expired from then on. */
  lemma ResetTokenVerifies(env: Env, userId: string, email: string, nowMs: nat, laterMs: nat)
    ensures GeneratePasswordResetToken(env, userId, email, nowMs).Ok?
    ensures var result := VerifyPasswordResetToken(env, GeneratePasswordResetToken(env, userId, email, nowMs).value, laterMs);
            if Seconds(laterMs) < Seconds(nowMs) + 3600 then result == Ok(Subject(Some(userId), Some(email)))
            else result == Err("Reset token expired")
  {
    SecretsConfigured(env);
    ResetLifetimeMs();
    var claims := ResetClaims(userId, email, nowMs);
    VerifySigned(claims, Secret(env), ResetLifetime, nowMs, laterMs);
    var text := Sign(claims, Secret(env), ResetLifetime, nowMs).value;
    assert GeneratePasswordResetToken(env, userId, email, nowMs) == Ok(text);
    var exp := Seconds(nowMs) + 3600;
    if Seconds(laterMs) < exp {
      assert Verify(text, Secret(env), laterMs).value.claims == claims;
    } else {
      ExpiredResetToken(env, text, laterMs);
    }
  }

  /**
   * Tokens share `JWT_SECRET` but not their purpose: while unexpired, a verification token
   * is refused as a reset token and the other way round, with the re-wrapped 'Token
   * verification failed', while `verifyToken`, which reads no `type`, accepts both.
   */
  lemma PurposeTokensCrossed(env: Env, userId: string, email: string, nowMs: nat, laterMs: nat)
    requires Seconds(laterMs) < Seconds(nowMs) + 3600
    ensures GenerateVerificationToken(env, email, nowMs).Ok?
    ensures GeneratePasswordResetToken(env, userId, email, nowMs).Ok?
    ensures VerifyPasswordResetToken(env, GenerateVerificationToken(env, email, nowMs).value, laterMs)
            == Err("Token verification failed")
    ensures VerifyEmailToken(env, GeneratePasswordResetToken(env, userId, email, nowMs).value, laterMs)
            == Err("Token verification failed")
    ensures VerifyToken(env, GenerateVerificationToken(env, email, nowMs).value, laterMs)
            == Ok(VerificationClaims(email, nowMs))
    ensures VerifyToken(env, GeneratePasswordResetToken(env, userId, email, nowMs).value, laterMs)
            == Ok(ResetClaims(userId, email, nowMs))
  {
    VerificationTokenCrossed(env, email, nowMs, laterMs);
    ResetTokenCrossed(env, userId, email, nowMs, laterMs);
  }

  lemma KindsDiffer()
    ensures EmailVerificationKind != PasswordResetKind
  {
    assert EmailVerificationKind[0] != PasswordResetKind[0];
  }

  /** Within the hour a verification token passes `verifyToken` but not the reset check. */
  lemma VerificationTokenCrossed(env: Env, email: string, nowMs: nat, laterMs: nat)
    requires Seconds(laterMs) < Seconds(nowMs) + 3600
    ensures GenerateVerificationToken(env, email, nowMs).Ok?
    ensures VerifyPasswordResetToken(env, GenerateVerificationToken(env, email, nowMs).value, laterMs)
            == Err("Token verification failed")
    ensures VerifyToken(env, GenerateVerificationToken(env, email, nowMs).value, laterMs)
            == Ok(VerificationClaims(email, nowMs))
  {
    SecretsConfigured(env);
    VerificationLifetimeMs();
    VerifySigned(VerificationClaims(email, nowMs), Secret(env), VerificationLifetime, nowMs, laterMs);
    KindsDiffer();
  }

  /** Within the hour a reset token passes `verifyToken` but not the e-mail check. */
  lemma ResetTokenCrossed(env: Env, userId: string, email: string, nowMs: nat, laterMs: nat)
    requires Seconds(laterMs) < Seconds(nowMs) + 3600
    ensures GeneratePasswordResetToken(env, userId, email, nowMs).Ok?
    ensures VerifyEmailToken(env, GeneratePasswordResetToken(env, userId, email, nowMs).value, laterMs)
            == Err("Token verification failed")
    ensures VerifyToken(env, GeneratePasswordResetToken(env, userId, email, nowMs).value, laterMs)
            == Ok(ResetClaims(userId, email, nowMs))
  {
    SecretsConfigured(env);
    ResetLifetimeMs();
    VerifySigned(ResetClaims(userId, email, nowMs), Secret(env), ResetLifetime, nowMs, laterMs);
    KindsDiffer();
  }
}
