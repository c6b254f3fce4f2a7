# DormLife backend, modelled in Dafny

DormLife is the Express/PostgreSQL backend of a residence-hall app. Residents vote on the
temperature of their zone once a day, file maintenance requests and sign in with JSON Web
Tokens; administrators read per-school statistics. This project models the rules in
`backend/src` over in-memory tables and proves what they guarantee:

- **Temperature voting** (`Temperature`, `TemperatureController`). One vote per user, zone and
  calendar day, checked before the insert. The zone's target follows the rounded mean of the
  last 24 hours of votes. The module also covers the zone statistics with their sparse
  per-day trend, and the handlers' 404/400/429/500 decisions.
- **Accounts** (`Users`, `AuthController`). The grade/floor admission rule, lower-cased
  e-mails, active-only lookups, the whitelisted partial update (`Patch`), single-use
  verification and reset tokens, and the register, login, verify, forgot, reset and refresh
  handlers.
- **Tokens and access control** (`TokenCodec`, `Jwt`, `AccessControl`). Bearer-header
  parsing, the token kinds and how their errors are renamed, and the authenticate,
  requireRole, requireVerification, optionalAuth and rateLimitByUser middleware.
- **Error handling** (`ErrorHandling`). The ordered classification of a thrown error, and
  the masking of 500s in production.
- **Schools, requests and migrations** (`Schools`, `SchoolRoutes`, `Requests`, `Migrate`).
  The school table and its statistics, the school routes and their guards, maintenance
  requests, and the schema splitter with its skip-known-errors loop.

Shared modules: `Wrappers` (Option, Result), `Text` (the JavaScript string operations used),
`Sorting` (`ORDER BY` as a stable sort on a lexicographic key) and `Tables` (`WHERE`, `SUM`,
`AVG`).

State that the source updates in place is a class: `TemperatureStore`, `UserTable`,
`SchoolTable`, `RequestTable`, and `AccessControl.Exchange` for `req.user`. Each class method
is specified by a function of the old state, and the lemmas are about those functions. The
loops that build SQL parameter lists (`Patch.BuildSetClause`, the body of
`TemperatureStore.UpdateZoneTemperature`) and the migration loop (`Migrate.Execute`) are
methods with loop invariants.

The clock (`now`, milliseconds since the epoch), generated ids, bcrypt salts, random tokens,
`NODE_ENV` and the environment secrets are parameters. A failing database call is a boolean
or an error parameter. The model has one of these only where the source reacts to that
failure in its own way.

## Model

| member | source | states |
|---|---|---|
| Temperature.Shown | backend/src/models/Temperature.ts:213-227 | a reading is shown exactly when it is present and non-zero, and is then unchanged |
| Temperature.MapZones | backend/src/models/Temperature.ts:6-20 | the listing maps every zone row through the API mapper, one for one |
| Temperature.ZonesBySchoolExactly | backend/src/models/Temperature.ts:6-20 | `getZonesBySchool` holds exactly the active zones of the school, each once, ordered by name |
| Temperature.MappedInNameOrder | backend/src/models/Temperature.ts:6-20 | zones taken from rows sorted by name are in name order |
| Temperature.MappedExactly | backend/src/models/Temperature.ts:6-20 | reordering the kept rows changes neither which zones are listed nor how many |
| Temperature.ZoneById | backend/src/models/Temperature.ts:22-40 | null exactly when no active zone has the id; otherwise the mapped form of such a zone |
| Temperature.CanUserVoteExactly | backend/src/models/Temperature.ts:42-59 | a user may vote exactly when the query succeeds and the user has no vote in the zone dated today |
| Temperature.SubmitKeepsOneVotePerDay | backend/src/models/Temperature.ts:61-86 | a vote the daily check admits keeps at most one vote per user, zone and day |
| Temperature.VotedToday | backend/src/models/Temperature.ts:42-59 | after a vote, its user cannot vote again in that zone for the rest of the day |
| Temperature.Latest | backend/src/models/Temperature.ts:132-152 | the chosen vote is one of the votes and no vote is newer |
| Temperature.UserLastVote | backend/src/models/Temperature.ts:132-152 | null exactly on a fault or when the user never voted in the zone; otherwise the user's newest vote there |
| Temperature.Temps | backend/src/models/Temperature.ts:95-102 | the temperature column of the votes, in order |
| Temperature.DaysWithVotes | backend/src/models/Temperature.ts:104-110 | exactly the days in the window that have a vote, strictly ascending |
| Temperature.LastDay | backend/src/models/Temperature.ts:104-110 | the latest day of any vote, which some vote falls on |
| Temperature.DayMonotone | backend/src/models/Temperature.ts:99-107 | a later time is never on an earlier calendar day |
| Temperature.StatsCounts | backend/src/models/Temperature.ts:88-130 | today's count never exceeds the total, and a zone without votes has all-zero statistics and an empty trend |
| Temperature.TrendExactly | backend/src/models/Temperature.ts:104-118 | one trend entry per day of the last week that has a vote, ascending, each the mean of that day's votes |
| Temperature.RoundNearest | backend/src/models/Temperature.ts:205 | `Math.round` is within one half of its argument |
| Temperature.RoundWithin | backend/src/models/Temperature.ts:205 | rounding a value between two whole numbers stays between them |
| Temperature.SetTarget | backend/src/models/Temperature.ts:202-206 | the zones with the id get the target and the time; every other row is unchanged |
| Temperature.TargetFollowsVotes | backend/src/models/Temperature.ts:191-211 | after a vote the target is the rounded mean of the zone's last 24 hours of votes, and lies within any whole bounds those votes respect |
| Temperature.SetTemperature | backend/src/models/Temperature.ts:154-182 | the table keeps its length |
| Temperature.RunUpdate | backend/src/models/Temperature.ts:168-175 | the update statement keeps the table's length |
| Temperature.SetTemperatureFacts | backend/src/models/Temperature.ts:154-182 | the current reading is always set, the target only when one is given, and nothing else but `updated_at` changes |
| Temperature.TemperatureStore.constructor | backend/src/models/Temperature.ts:6-20 | a store with the given zones and no votes or history |
| Temperature.TemperatureStore.UpdateZoneAverage | backend/src/models/Temperature.ts:191-211 | the zone target follows the last day's votes, and a fault leaves the store unchanged |
| Temperature.TemperatureStore.SubmitVote | backend/src/models/Temperature.ts:61-86 | refused with 'User has already voted today' and nothing stored when the check says no; an insert error passes on; otherwise one vote of weight 1 is appended and the target recomputed |
| Temperature.TemperatureStore.UpdateZoneTemperature | backend/src/models/Temperature.ts:154-189 | the numbered update sets the reading and optional target, and one history row is appended; the two faults give 'Failed to update temperature' |
| Temperature.ZonesBySchool | backend/src/models/Temperature.ts:6-20 | defines `getZonesBySchool`; stated by ZonesBySchoolExactly |
| Temperature.CanUserVote | backend/src/models/Temperature.ts:42-59 | defines `canUserVote`; stated by CanUserVoteExactly |
| Temperature.ZoneStats | backend/src/models/Temperature.ts:88-130 | defines `getZoneStats`; stated by StatsCounts and TrendExactly |
| Temperature.LastWeek | backend/src/models/Temperature.ts:104-110 | defines the votes of the last 7 days; stated by TrendExactly |
| Temperature.LastDayVotes | backend/src/models/Temperature.ts:193-199 | defines the votes of the last 24 hours; stated by TargetFollowsVotes |
| Temperature.AverageTarget | backend/src/models/Temperature.ts:191-211 | defines `updateZoneAverage`'s new zones; stated by TargetFollowsVotes |
| TemperatureController.NoZoneToChoose | backend/src/controllers/TemperatureController.ts:11-22 | with no zone asked for, there is none to use exactly when the school has no active zone |
| TemperatureController.ChosenZoneFirst | backend/src/controllers/TemperatureController.ts:11-22 | a zone asked for is used as given; otherwise the choice is the school's active zone whose name comes first |
| TemperatureController.CurrentTemperatureFacts | backend/src/controllers/TemperatureController.ts:6-55 | the reading and the target are the zone's, or 72 exactly when missing or 0; an inactive or missing zone is 404 |
| TemperatureController.VoteTargetFacts | backend/src/controllers/TemperatureController.ts:62-92 | a vote reaches the store exactly for an active zone and a temperature within its inclusive bounds; 404 comes before the range check's 400 |
| TemperatureController.StatsOfSilentZone | backend/src/controllers/TemperatureController.ts:125-160 | a zone nobody voted in, existing or not, gets all-zero statistics and no last vote |
| TemperatureController.GetZones | backend/src/controllers/TemperatureController.ts:162-177 | 200 with the school's zone listing, which holds exactly the school's active zones as the API shows them |
| TemperatureController.SubmitVote | backend/src/controllers/TemperatureController.ts:57-123 | after the zone and range checks, the store's refusal is 429, any other failure 500, and a stored vote 200 with the next vote a day later |
| TemperatureController.ChooseZone | backend/src/controllers/TemperatureController.ts:11-22 | defines the zone a handler works on; stated by NoZoneToChoose and ChosenZoneFirst |
| TemperatureController.GetCurrentTemperature | backend/src/controllers/TemperatureController.ts:6-55 | defines `getCurrentTemperature`'s reply; stated by CurrentTemperatureFacts |
| TemperatureController.VoteTarget | backend/src/controllers/TemperatureController.ts:62-92 | defines the zone and range checks of `submitVote`; stated by VoteTargetFacts |
| TemperatureController.GetTemperatureStats | backend/src/controllers/TemperatureController.ts:125-160 | defines `getTemperatureStats`'s reply; stated by StatsOfSilentZone |
| Users.SameKeysValid | backend/src/models/User.ts:77-119 | a table with the same ids, e-mails and active flags keeps the unique keys |
| Users.FindByEmail | backend/src/models/User.ts:77-97 | the active user with the lower-cased e-mail, or null exactly when there is none |
| Users.ActiveIndex | backend/src/models/User.ts:99-119 | the position of the active user with the id, or none exactly when there is none |
| Users.SameKeysIndex | backend/src/models/User.ts:99-119 | tables with the same keys answer a lookup by id at the same position |
| Users.FindById | backend/src/models/User.ts:99-119 | the active user with the id, or null exactly when there is none |
| Users.FindersAgree | backend/src/models/User.ts:77-119 | in a valid table, finding a user by e-mail and by id agree, and succeed exactly for an active user |
| Users.FindByEmailAt | backend/src/models/User.ts:77-97 | in a valid table the active row with the lower-cased e-mail is the one found |
| Users.GradeLevelClamped | backend/src/models/User.ts:19-22 | the grade level is clamped to 1..4 and equals the years to graduation when those lie in 1..4 |
| Users.CreateRoomRule | backend/src/models/User.ts:24-34 | `create` refuses exactly the rooms on floors 2 to 5 that do not match the grade, before anything else can fail |
| Users.NoFloorNoRule | backend/src/models/User.ts:24-34 | a room number without digits, or none at all, passes the room rule |
| Users.CreateStores | backend/src/models/User.ts:36-75 | the created row has the lower-cased e-mail, the role defaulting to 'student', the default preferences object; a unique violation is 'Email already exists' and a fault 'Failed to create user' |
| Users.CreateThenFind | backend/src/models/User.ts:7-119 | a successful `create` keeps the table valid, and the new user is then found by e-mail and by id |
| Users.AssignUserAccepts | backend/src/models/User.ts:132-147 | the store accepts a text in a text column, `null` in the four optional ones, and any JSON value (null, a text or an object) in `preferences` |
| Users.AssignUserFacts | backend/src/models/User.ts:121-175 | an accepted assignment sets its column and leaves every other column and the protected fields unchanged |
| Users.AssignedColumn | backend/src/models/User.ts:121-175 | an accepted assignment makes its column read as the value and leaves the protected fields and `updated_at` alone |
| Users.ReadOtherColumn | backend/src/models/User.ts:121-175 | an accepted assignment leaves every other column reading as before |
| Users.UpdateWrites | backend/src/models/User.ts:121-175 | a successful update writes each kept value to its column, changes no other column, and keeps e-mail, password, role, flags and tokens |
| Users.StampKeepsColumns | backend/src/models/User.ts:153-163 | stamping `updated_at` changes none of the columns an update can reach |
| Users.ApplyEntriesFacts | backend/src/models/User.ts:132-147 | applying kept entries with distinct columns succeeds exactly when every value fits, and sets exactly those columns |
| Users.UpdateFailures | backend/src/models/User.ts:149-151 | no qualifying field, or no active user with the id, is 'Failed to update user' |
| Users.UpdateKeepsValid | backend/src/models/User.ts:121-175 | an update keeps ids and e-mails unique |
| Users.MarkVerified | backend/src/models/User.ts:216-237 | the keys of the table are unchanged |
| Users.FirstWithVerification | backend/src/models/User.ts:216-237 | the first row holding the token, or none exactly when no row holds it |
| Users.VerifyEmailConsumes | backend/src/models/User.ts:216-237 | a user is answered exactly when one held the token; that user is verified, no row keeps the token, and a second call answers null |
| Users.SetVerification | backend/src/models/User.ts:201-214 | the keys of the table are unchanged |
| Users.SetReset | backend/src/models/User.ts:239-252 | the keys of the table are unchanged |
| Users.ApplyReset | backend/src/models/User.ts:254-286 | the keys of the table are unchanged |
| Users.FirstWithReset | backend/src/models/User.ts:254-286 | the first row holding the reset token, or none exactly when no row holds it |
| Users.ResetConsumes | backend/src/models/User.ts:254-286 | a user is answered exactly when a row holds the token with an expiry after now; the new password then matches, and the token cannot be used again |
| Users.StampLogin | backend/src/models/User.ts:177-190 | the keys of the table are unchanged |
| Users.SetVerificationFacts | backend/src/models/User.ts:201-214 | every row with the lower-cased e-mail gets the token and the time, nothing else changes, and such a user can then verify with the token |
| Users.SetResetFacts | backend/src/models/User.ts:239-252 | every row with the lower-cased e-mail gets the token, its expiry and the time, nothing else changes, and the token allows a reset until the expiry |
| Users.StampLoginFacts | backend/src/models/User.ts:177-190 | the row with the id gets the login time and nothing else changes; the active user with the id is then found with that last login |
| Users.UserTable.constructor | backend/src/models/User.ts:7-75 | an empty, valid table |
| Users.UserTable.Create | backend/src/models/User.ts:7-75 | the row is appended exactly when `create` succeeds, and the table stays valid |
| Users.UserTable.UpdateById | backend/src/models/User.ts:121-175 | the built statement updates the active row with the id as the update specifies, and the table stays valid |
| Users.UserTable.SetVerificationToken | backend/src/models/User.ts:201-214 | the token is stored on the rows with the e-mail |
| Users.UserTable.VerifyEmail | backend/src/models/User.ts:216-237 | every row holding the token is verified, and the first of them is answered |
| Users.UserTable.SetResetToken | backend/src/models/User.ts:239-252 | the token and its expiry are stored on the rows with the e-mail |
| Users.UserTable.ResetPassword | backend/src/models/User.ts:254-286 | the rows holding the token get the new hash only when the expiry check passes |
| Users.UserTable.UpdateLastLogin | backend/src/models/User.ts:177-190 | the row with the id gets the login time |
| Patch.CamelToSnake | backend/src/models/User.ts:331-333 | the column name is lower case and no shorter than the key, and as long exactly when the key has no capitals |
| Patch.CamelToSnakeFixed | backend/src/models/School.ts:176-178 | a key is its own column name exactly when it has no capitals |
| Patch.CamelToSnakeAppend | backend/src/models/School.ts:176-178 | converting a concatenation converts each part |
| Patch.KeysCollide | backend/src/models/User.ts:136-138 | a key with a capital and the different key spelling that capital as '_' and its lower-case letter (as 'fullName' and 'full_name') name the same column |
| Patch.CapitalSpelled | backend/src/models/School.ts:176-178 | a capital and '_' followed by its lower-case letter convert alike |
| Patch.CamelToSnakeCons | backend/src/models/School.ts:176-178 | the conversion handles the first character and then the rest |
| Patch.Kept | backend/src/models/User.ts:136-138 | kept entries come from the input and each names a whitelisted column with a defined value |
| Patch.KeptExactly | backend/src/models/School.ts:86-87 | an entry is kept exactly when it qualifies |
| Patch.KeptAppend | backend/src/models/School.ts:84-95 | keeping commutes with concatenation, so kept entries stay in input order |
| Patch.BuildSetClause | backend/src/models/User.ts:132-147 | the loop numbers the kept entries from 1 in input order, JSON-encodes the JSON column, and leaves the id's placeholder next |
| Patch.KeptStep | backend/src/models/User.ts:132-147 | one more entry is kept exactly when it qualifies, after the earlier ones |
| Patch.BuiltExtend | backend/src/models/User.ts:132-147 | one loop step on a kept entry adds its assignment at the current placeholder and its value, and moves the counter on |
| Patch.ExecuteBuilt | backend/src/models/User.ts:153-163 | the built statement with the id bound last assigns each kept value to its column, and fails exactly when a column is named twice |
| Patch.ExecuteShifted | backend/src/models/School.ts:101-111 | running any suffix of the assignments equals applying the same suffix of the kept entries |
| AuthController.DefaultLifetimesSign | backend/src/utils/jwt.ts:11-31 | with the default lifetimes, issuing a token pair never fails |
| AuthController.RegisterUnknownSchool | backend/src/controllers/AuthController.ts:15-22 | an unknown school is 400 'Invalid school' and nothing is stored |
| AuthController.RegisterRefused | backend/src/controllers/AuthController.ts:58-72 | a refused `create` stores nothing; a taken e-mail is 409 and every other refusal, the room rule included, 500 |
| AuthController.RegisterVerifies | backend/src/controllers/AuthController.ts:25-56 | an accepted registration stores the user verified with no pending token, keeps the table valid, and answers 201 with no verification required |
| AuthController.LoginDecides | backend/src/controllers/AuthController.ts:82-126 | the same 401 exactly when no active user has the e-mail or the password is wrong; 'Account deactivated' is never answered |
| AuthController.LoginTokenNamesUser | backend/src/controllers/AuthController.ts:82-126 | a signed-in user's access token names that user until it expires |
| AuthController.VerifyEmailErrors | backend/src/controllers/AuthController.ts:215-225 | an expired token is 400 but a malformed or foreign one, or one of another purpose, is 500; none changes the table |
| AuthController.VerifyEmailOnce | backend/src/controllers/AuthController.ts:161-227 | a verification token verifies its user within 24 hours, and a replay is refused with 400 |
| AuthController.ForgotHidesAccount | backend/src/controllers/AuthController.ts:234-256 | the answer does not tell whether the e-mail is known; only a known one stores a token, valid for one hour |
| AuthController.ForgotThenReset | backend/src/controllers/AuthController.ts:229-293 | a reset within the hour of a forgot is accepted, and the new password then passes login's check |
| AuthController.ResetAccepted | backend/src/controllers/AuthController.ts:266-293 | a reset the table allows answers 200 'Password reset successfully' and stores the new password's hash |
| AuthController.LoginWithHash | backend/src/controllers/AuthController.ts:75-101 | the active user with the e-mail and the new password's hash passes `login`'s credentials check |
| AuthController.RefreshErrors | backend/src/controllers/AuthController.ts:299-349 | a missing token is 401 'Refresh token required'; an expired one 401; a malformed or foreign one 500 |
| AuthController.RefreshIssued | backend/src/controllers/AuthController.ts:295-351 | an issued refresh token yields, for seven days, a new pair for the active user; a missing user is 401 'Invalid refresh token'; an access token is refused |
| AuthController.IssuedRefreshVerifies | backend/src/controllers/AuthController.ts:295-309 | for seven days an issued refresh token is non-empty and verifies to its user's id and e-mail |
| AuthController.IssuedRefreshAccepted | backend/src/controllers/AuthController.ts:295-351 | within seven days an issued refresh token yields a new pair for the active user, and 401 'Invalid refresh token' when there is none |
| AuthController.AccessTokenRefused | backend/src/controllers/AuthController.ts:299-349 | with the built-in secrets an access token offered for refresh is answered 500 'Token refresh failed' |
| AuthController.Register | backend/src/controllers/AuthController.ts:10-73 | the reply and the table are those of the register decision chain, and the table stays valid |
| AuthController.Login | backend/src/controllers/AuthController.ts:75-159 | the reply is the login decision, and the last login is stamped only on success |
| AuthController.VerifyEmail | backend/src/controllers/AuthController.ts:161-227 | the reply and the table are those of the verify decision chain |
| AuthController.ForgotPassword | backend/src/controllers/AuthController.ts:229-264 | the reply and the table are those of the forgot decision chain |
| AuthController.ResetPassword | backend/src/controllers/AuthController.ts:266-293 | the reply and the table are those of the reset decision chain, which is 400 exactly when the model's reset answers null |
| AuthController.RegisterOutcome | backend/src/controllers/AuthController.ts:10-73 | defines `register`'s reply and table; stated by RegisterUnknownSchool, RegisterRefused and RegisterVerifies |
| AuthController.LoginOutcome | backend/src/controllers/AuthController.ts:75-159 | defines `login`'s reply; stated by LoginDecides and LoginTokenNamesUser |
| AuthController.VerifyEmailOutcome | backend/src/controllers/AuthController.ts:161-227 | defines `verifyEmail`'s reply and table; stated by VerifyEmailErrors and VerifyEmailOnce |
| AuthController.ForgotOutcome | backend/src/controllers/AuthController.ts:229-264 | defines `forgotPassword`'s reply and table; stated by ForgotHidesAccount and ForgotThenReset |
| AuthController.ResetOutcome | backend/src/controllers/AuthController.ts:266-293 | defines `resetPassword`'s reply and table; stated by ResetAccepted and ForgotThenReset |
| AuthController.RefreshOutcome | backend/src/controllers/AuthController.ts:295-351 | defines `refreshToken`'s reply; stated by RefreshErrors and RefreshIssued |
| Jwt.SecretsConfigured | backend/src/utils/jwt.ts:6-9 | the secrets are never empty, the built-in ones differ, and the lifetimes default to '15m' and '7d' |
| Jwt.TimespanMs | backend/src/utils/jwt.ts:15-22 | a lifetime is read only when it starts with digits |
| Jwt.TimespanOf | backend/src/utils/jwt.ts:15-22 | a number followed by a unit is that many units |
| Jwt.AccessLifetime | backend/src/utils/jwt.ts:8 | access tokens live 15 minutes |
| Jwt.RefreshLifetime | backend/src/utils/jwt.ts:9 | refresh tokens live 7 days |
| Jwt.VerificationLifetimeMs | backend/src/utils/jwt.ts:72 | verification tokens live 24 hours |
| Jwt.ResetLifetimeMs | backend/src/utils/jwt.ts:110 | reset tokens live one hour |
| Jwt.Sign | backend/src/utils/jwt.ts:14-24 | signing succeeds exactly with a non-empty secret and a readable lifetime |
| Jwt.VerifySigned | backend/src/utils/jwt.ts:33-36 | a signed token verifies with its secret until it expires, and afterwards fails only as expired |
| Jwt.SignedDecodes | backend/src/utils/jwt.ts:14-24 | a signed text reads back as the token it was made from |
| Jwt.VerifyDecoded | backend/src/utils/jwt.ts:33-36 | a well-signed token without `nbf` verifies exactly before its `exp` second and is expired from then on |
| Jwt.VerifyOtherSecret | backend/src/utils/jwt.ts:33-46 | a token never verifies under another secret |
| Jwt.HeaderToken | backend/src/utils/jwt.ts:138-149 | a header yields a token exactly when it is 'Bearer ' followed by a text without spaces, the empty text included |
| Jwt.IssuedTokenInHeader | backend/src/utils/jwt.ts:143-148 | every issued token survives a round trip through a bearer header |
| Jwt.IssuedPairInHeader | backend/src/utils/jwt.ts:11-31 | both tokens of a pair are non-empty and survive a bearer header |
| Jwt.SignedInHeader | backend/src/utils/jwt.ts:11-31 | a signed token is non-empty and survives a bearer header |
| Jwt.GeneratedTokensVerify | backend/src/utils/jwt.ts:11-61 | the access token verifies to the whole payload and the refresh token to the id and e-mail, each until its own expiry |
| Jwt.AccessTokenVerifies | backend/src/utils/jwt.ts:11-46 | an access token verifies to the whole payload before its expiry and as 'Token expired' after |
| Jwt.RefreshTokenVerifies | backend/src/utils/jwt.ts:11-61 | a refresh token verifies to the id and e-mail before its expiry and as 'Refresh token expired' after |
| Jwt.PairTokensNotInterchangeable | backend/src/utils/jwt.ts:33-61 | with distinct secrets neither token of a pair passes for the other |
| Jwt.InvalidTokenExactly | backend/src/utils/jwt.ts:37-45 | 'Invalid token' exactly for a malformed text or a foreign signature |
| Jwt.VerificationTokenVerifies | backend/src/utils/jwt.ts:63-98 | a verification token yields its e-mail for 24 hours and is expired from then on |
| Jwt.ExpiredResetToken | backend/src/utils/jwt.ts:127-130 | an expired reset token is 'Reset token expired' |
| Jwt.ResetTokenVerifies | backend/src/utils/jwt.ts:100-136 | a reset token yields its id and e-mail for one hour and is expired from then on |
| Jwt.PurposeTokensCrossed | backend/src/utils/jwt.ts:80-136 | a verification token is refused as a reset token and the other way round, as 'Token verification failed', while `verifyToken` accepts both |
| Jwt.VerificationTokenCrossed | backend/src/utils/jwt.ts:80-136 | within the hour a verification token passes `verifyToken` and fails the reset check as 'Token verification failed' |
| Jwt.ResetTokenCrossed | backend/src/utils/jwt.ts:80-136 | within the hour a reset token passes `verifyToken` and fails the e-mail check as 'Token verification failed' |
| Jwt.Verify | backend/src/utils/jwt.ts:33-36 | defines `jwt.verify`: the signature, then `nbf`, then `exp`; stated by VerifySigned, VerifyDecoded and VerifyOtherSecret |
| Jwt.GenerateTokens | backend/src/utils/jwt.ts:11-31 | defines the access and refresh pair; stated by GeneratedTokensVerify and PairTokensNotInterchangeable |
| Jwt.VerifyToken | backend/src/utils/jwt.ts:33-46 | defines `verifyToken` with its renamed errors; stated by AccessTokenVerifies and InvalidTokenExactly |
| Jwt.VerifyRefreshToken | backend/src/utils/jwt.ts:48-61 | defines `verifyRefreshToken` with its renamed errors; stated by RefreshTokenVerifies |
| Jwt.GenerateVerificationToken | backend/src/utils/jwt.ts:63-78 | defines the 24-hour verification token; stated by VerificationTokenVerifies |
| Jwt.VerifyEmailToken | backend/src/utils/jwt.ts:80-98 | defines `verifyEmailToken` with its `type` check; stated by VerificationTokenVerifies and PurposeTokensCrossed |
| Jwt.GeneratePasswordResetToken | backend/src/utils/jwt.ts:100-116 | defines the one-hour reset token; stated by ResetTokenVerifies |
| Jwt.VerifyPasswordResetToken | backend/src/utils/jwt.ts:118-136 | defines `verifyPasswordResetToken` with its `type` check; stated by ResetTokenVerifies and PurposeTokensCrossed |
| Jwt.GetTokenFromHeader | backend/src/utils/jwt.ts:138-149 | defines the Bearer parsing; stated by HeaderToken and IssuedTokenInHeader |
| TokenCodec.EncodeAtoms | backend/src/utils/jwt.ts:14-24 | an encoded token text contains no space |
| TokenCodec.AtomsRoundTrip | backend/src/utils/jwt.ts:33-36 | decoding reads back the encoded numbers |
| TokenCodec.DecodeAtomsStep | backend/src/utils/jwt.ts:33-36 | a number followed by '.' decodes ahead of what the rest decodes to |
| TokenCodec.AtomStep | backend/src/utils/jwt.ts:33-36 | an encoded number in front of a decodable text decodes in front of its numbers |
| TokenCodec.CharCodes | backend/src/utils/jwt.ts:14-24 | a text is encoded character by character |
| TokenCodec.CharCodesRoundTrip | backend/src/utils/jwt.ts:33-36 | character codes read back to the text |
| TokenCodec.StrRoundTrip | backend/src/utils/jwt.ts:33-36 | a text field reads back, leaving the rest of the input |
| TokenCodec.OptStrRoundTrip | backend/src/utils/jwt.ts:33-36 | an optional text field reads back, leaving the rest of the input |
| TokenCodec.PresentStrRoundTrip | backend/src/utils/jwt.ts:33-36 | a present text field reads back, leaving the rest of the input |
| TokenCodec.OptNatRoundTrip | backend/src/utils/jwt.ts:33-36 | an optional number field reads back, leaving the rest of the input |
| TokenCodec.ClaimsRoundTrip | backend/src/utils/jwt.ts:33-36 | the claims read back, leaving the rest of the input |
| TokenCodec.Encode | backend/src/utils/jwt.ts:14-24 | a token text is never empty and has no space |
| TokenCodec.DecodeEncode | backend/src/utils/jwt.ts:33-36 | every token reads back from its text |
| TokenCodec.EncodeInjective | backend/src/utils/jwt.ts:33-36 | distinct tokens have distinct texts |
| AccessControl.IdentityOmitsSecrets | backend/src/middleware/auth.ts:42-59 | `req.user` carries nothing of the password hash or the tokens |
| AccessControl.AuthenticateDecides | backend/src/middleware/auth.ts:16-75 | only 401s, never 'Account deactivated'; 'Authentication required' exactly for a missing or empty token; passes exactly for a verified token naming an active user, whose identity it attaches |
| AccessControl.IssuedTokenAuthenticates | backend/src/middleware/auth.ts:16-75 | an issued access token lets its active user in until it expires, and is 401 'Invalid or expired token' afterwards |
| AccessControl.OptionalAgreesWithAuthenticate | backend/src/middleware/auth.ts:126-164 | `optionalAuth` attaches exactly the user `authenticate` would admit |
| AccessControl.RequireRoleDecides | backend/src/middleware/auth.ts:77-100 | passes exactly a user whose role is listed; no user is 401, another role 403; one role acts as a one-element list |
| AccessControl.RequireVerificationDecides | backend/src/middleware/auth.ts:102-124 | passes exactly a verified user; no user is 401, an unverified one 403 'Email verification required' |
| AccessControl.Exchange.constructor | backend/src/middleware/auth.ts:16-75 | a request with no user, no reply and no call to next |
| AccessControl.Exchange.Authenticate | backend/src/middleware/auth.ts:16-75 | either attaches the user and calls next once, or answers and does not call next |
| AccessControl.Exchange.OptionalAuth | backend/src/middleware/auth.ts:126-164 | never answers, calls next exactly once, and attaches a found active user |
| AccessControl.Exchange.RateLimitByUser | backend/src/middleware/auth.ts:166-175 | passes every request through unchanged |
| AccessControl.AuthenticateGate | backend/src/middleware/auth.ts:16-75 | defines `authenticate`'s verdict: 401 'Authentication required' for a missing or empty token, 'User not found', otherwise 'Invalid or expired token'; stated by AuthenticateDecides |
| AccessControl.OptionalUser | backend/src/middleware/auth.ts:126-164 | defines `optionalAuth`'s user, failures ignored; stated by OptionalAgreesWithAuthenticate |
| AccessControl.RequireRole | backend/src/middleware/auth.ts:77-100 | defines `requireRole`: 401 without a user, 403 for a role outside the list; stated by RequireRoleDecides |
| AccessControl.RequireVerification | backend/src/middleware/auth.ts:102-124 | defines `requireVerification`: 401 without a user, 403 for an unverified one; stated by RequireVerificationDecides |
| ErrorHandling.FirstRule | backend/src/middleware/errorHandler.ts:52-73 | the first substring rule the message matches, or none exactly when it matches none |
| ErrorHandling.MessageRulesDecide | backend/src/middleware/errorHandler.ts:52-74 | an unnamed error is decided by the first matching rule, and is 500 'Internal server error' when none matches |
| ErrorHandling.OrderOfChecks | backend/src/middleware/errorHandler.ts:27-50 | an AppError keeps its status and message, and a named error is decided by its name, whatever its message |
| ErrorHandling.HandleErrorMasks | backend/src/middleware/errorHandler.ts:76-85 | the status is kept; in production every 500 says 'Something went wrong' and nothing else is touched; details only for a validation error, stack only in development with 500 |
| ErrorHandling.HandleErrorStatuses | backend/src/middleware/errorHandler.ts:27-74 | apart from an AppError's own status, only 400, 401, 409, 413, 429 and 500 come out |
| ErrorHandling.NotFound | backend/src/middleware/errorHandler.ts:88-101 | always 404 'Route not found', echoing the path and the method |
| ErrorHandling.Classify | backend/src/middleware/errorHandler.ts:27-74 | defines the ordered chain of checks on a thrown error; stated by OrderOfChecks and MessageRulesDecide |
| ErrorHandling.HandleError | backend/src/middleware/errorHandler.ts:27-85 | defines the reply, with 500s masked in production; stated by HandleErrorStatuses and HandleErrorMasks |
| Http.NoHint | backend/src/controllers/AuthController.ts:215-225 | a message in which neither 'ex' nor 'in' occurs carries no client hint |
| Http.TokenMessageHints | backend/src/controllers/AuthController.ts:339-349 | the 'expired' messages carry the hint, and 'Invalid ...' and '... verification failed' do not |
| Http.ExpiredHints | backend/src/controllers/AuthController.ts:339-349 | 'Verification token expired' and 'Refresh token expired' carry the hint |
| Http.InvalidNoHint | backend/src/controllers/AuthController.ts:339-349 | 'Invalid verification token' and 'Invalid refresh token' do not carry it |
| Http.FailedNoHint | backend/src/controllers/AuthController.ts:339-349 | the '... failed' messages do not carry it |
| Schools.FindAll | backend/src/models/School.ts:6-19 | every school, each as often as stored, ordered by name |
| Schools.FindById | backend/src/models/School.ts:21-39 | the school with the id, or null exactly when none has it |
| Schools.IndexOf | backend/src/models/School.ts:104-115 | the position of the school with the id, or none exactly when none has it |
| Schools.CreateFacts | backend/src/models/School.ts:41-74 | the time zone defaults to 'UTC' and the settings to empty; a taken name is 'School name already exists', a fault 'Failed to create school'; the keys stay unique |
| Schools.AssignSchoolAccepts | backend/src/models/School.ts:84-95 | the store accepts a text in a text column, `null` for the address or the logo, and any JSON value (null, a text or an object) in `settings` |
| Schools.AssignSchoolFacts | backend/src/models/School.ts:76-123 | an accepted assignment sets its column and touches nothing else |
| Schools.NameClashExactly | backend/src/models/School.ts:111-122 | the name clash holds exactly when another school has the name |
| Schools.ApplyEntriesFacts | backend/src/models/School.ts:84-95 | applying kept entries with distinct columns sets exactly those columns |
| Schools.UpdateWrites | backend/src/models/School.ts:76-123 | a successful update writes each kept value to its column, changes no other column, and keeps the id and creation time |
| Schools.StampKeepsColumns | backend/src/models/School.ts:101-104 | stamping `updated_at` changes no column an update can reach |
| Schools.UpdateKeepsValid | backend/src/models/School.ts:76-123 | an update never gives two schools one name or one id |
| Schools.UpdateFailures | backend/src/models/School.ts:97-99 | no qualifying field, or no such school, is 'Failed to update school', and every failure carries that message |
| Schools.ActiveAtMostTotal | backend/src/models/School.ts:132-146 | open requests never outnumber requests |
| Schools.JoinedTempsFrom | backend/src/models/School.ts:132-146 | every averaged temperature is that of a vote from the last week in a zone of the school |
| Schools.StatsFacts | backend/src/models/School.ts:125-159 | only active users are counted, active requests are at most all requests, and the average is 0 or within any bounds the votes respect |
| Schools.SchoolTable.constructor | backend/src/models/School.ts:41-74 | an empty, valid table |
| Schools.SchoolTable.Create | backend/src/models/School.ts:41-74 | the row is appended exactly when `create` succeeds, and the table stays valid |
| Schools.SchoolTable.UpdateById | backend/src/models/School.ts:76-123 | the built statement updates the school with the id as the update specifies, and the table stays valid |
| Schools.NewRow | backend/src/models/School.ts:47-66 | defines the inserted school with the 'UTC' and `{}` defaults; stated by CreateFacts, through CreateOutcome |
| Schools.CreateOutcome | backend/src/models/School.ts:41-74 | defines `create`'s outcome; stated by CreateFacts |
| Schools.AssignSchool | backend/src/models/School.ts:84-111 | defines what the store makes of one `column = value`; stated by AssignSchoolAccepts and AssignSchoolFacts |
| Schools.GetSchoolStats | backend/src/models/School.ts:125-159 | defines the per-school counts and the vote average; stated by StatsFacts |
| SchoolRoutes.Summaries | backend/src/routes/schools.ts:15-20 | one summary per school, in order |
| SchoolRoutes.ListSchoolsFacts | backend/src/routes/schools.ts:9-29 | 200 unless the query fails, then one summary of each stored school, ordered by name; a failure is 500 'Failed to fetch schools' |
| SchoolRoutes.GetSchoolFacts | backend/src/routes/schools.ts:32-56 | 404 'School not found' exactly for an unknown id; 200 with the stored school exactly for a known one |
| SchoolRoutes.SchoolStatsRouteFacts | backend/src/routes/schools.ts:59-85 | the statistics are answered exactly to an authenticated admin of any school; others get 401 or 403 from the middleware; 'Access denied' is never answered |
| SchoolRoutes.ListSchools | backend/src/routes/schools.ts:9-29 | defines `GET /`; stated by ListSchoolsFacts |
| SchoolRoutes.GetSchool | backend/src/routes/schools.ts:32-56 | defines `GET /:id`; stated by GetSchoolFacts |
| SchoolRoutes.SchoolStatsRoute | backend/src/routes/schools.ts:59-85 | defines `GET /:id/stats` behind `authenticate` and `requireRole('admin')`; stated by SchoolStatsRouteFacts |
| Requests.NewRowFacts | backend/src/models/Request.ts:23-49 | a new request is 'pending' with no upvotes and no category, anonymous only when asked, with no photos by default |
| Requests.Author | backend/src/models/Request.ts:51-69 | the author row the join finds, or none exactly when no user has the id |
| Requests.FindAll | backend/src/models/Request.ts:51-69 | the page with limit 50 and offset 0 by default, each request with its author's name and room |
| Requests.NewestFirst | backend/src/models/Request.ts:57-58 | sorting puts newer requests first, keeping every request |
| Requests.PageWindow | backend/src/models/Request.ts:57-58 | a page is the window of the sorted table at the offset |
| Requests.PageFacts | backend/src/models/Request.ts:51-69 | a page holds at most the limit of requests, newest first, all from the table, and the whole table when it fits |
| Requests.FindById | backend/src/models/Request.ts:71-88 | the request with its author's name and room, or null exactly when it is absent |
| Requests.SetStatus | backend/src/models/Request.ts:90-107 | the table keeps its length |
| Requests.SetStatusFacts | backend/src/models/Request.ts:90-107 | only matching rows change; `resolved_at` becomes now exactly for 'resolved' and is otherwise kept |
| Requests.AddUpvote | backend/src/models/Request.ts:109-125 | the table keeps its length |
| Requests.AddUpvoteFacts | backend/src/models/Request.ts:109-125 | the matching rows gain exactly one upvote and nothing else changes but `updated_at` |
| Requests.Returning | backend/src/models/Request.ts:101-102 | the first row with the id, or none exactly when no row has it |
| Requests.ReturnsUpdated | backend/src/models/Request.ts:90-125 | the returned request carries the new status, or one more upvote than before |
| Requests.AbsentRequest | backend/src/models/Request.ts:101-121 | updating an absent request changes nothing and returns nothing |
| Requests.RequestTable.constructor | backend/src/models/Request.ts:23-49 | an empty table |
| Requests.RequestTable.Create | backend/src/models/Request.ts:23-49 | an insert error is passed on and nothing stored; otherwise the new row is appended |
| Requests.RequestTable.UpdateStatus | backend/src/models/Request.ts:90-107 | the status update is applied and the updated row returned; admin notes are ignored |
| Requests.RequestTable.IncrementUpvotes | backend/src/models/Request.ts:109-125 | the upvote is applied and the updated row returned |
| Requests.NewRow | backend/src/models/Request.ts:23-49 | defines the inserted request; stated by NewRowFacts |
| Requests.Page | backend/src/models/Request.ts:51-69 | defines `ORDER BY created_at DESC LIMIT OFFSET`; stated by PageWindow and PageFacts |
| Migrate.TrimAll | backend/src/database/migrate.ts:20 | every piece is trimmed, one for one |
| Migrate.TrimWithin | backend/src/database/migrate.ts:20 | trimming only keeps characters of the text |
| Migrate.TrimmedEnds | backend/src/database/migrate.ts:20 | a non-empty trimmed text starts and ends with a non-space |
| Migrate.StatementsClean | backend/src/database/migrate.ts:18-21 | every statement is non-empty, has no ';' and no surrounding whitespace |
| Migrate.SplitJoin | backend/src/database/migrate.ts:18-19 | splitting pieces joined with ';' gives the pieces back |
| Migrate.StatementsOfJoin | backend/src/database/migrate.ts:18-21 | clean statements joined with ';' split back into the same statements, in order |
| Migrate.FirstFailure | backend/src/database/migrate.ts:26-41 | the first statement whose error is not an "already exists" one; every statement before it succeeded or already existed |
| Migrate.Execute | backend/src/database/migrate.ts:26-41 | statements are sent in order with ';' re-appended, up to and including the first fatal error, which fails the run; errors 42P07, 42P06 and 42710 are skipped |
| Migrate.RunMigrations | backend/src/database/migrate.ts:6-48 | a setup failure exits 1 before any statement; otherwise the schema's statements run, and the exit code is 1 exactly when one failed |
| Migrate.Statements | backend/src/database/migrate.ts:18-21 | defines the schema split on ';', trimmed, empty pieces dropped; stated by StatementsClean and StatementsOfJoin |
| Tables.Filter | backend/src/models/Temperature.ts:95-102 | `WHERE` keeps exactly the rows that satisfy the condition, and only them |
| Tables.FilterAppend | backend/src/models/Temperature.ts:61-86 | filtering a table with a row appended filters the table and then the row |
| Tables.SumBounds | backend/src/models/Temperature.ts:95-102 | a sum of bounded values is bounded by the count times the bounds |
| Tables.MeanBounds | backend/src/models/Temperature.ts:195-205 | `AVG` of values between two bounds lies between them |
| Sorting.LexLeTotal | backend/src/models/School.ts:8-14 | any two keys are ordered |
| Sorting.LexLeTransitive | backend/src/models/School.ts:8-14 | the key order is transitive |
| Sorting.Codes | backend/src/models/School.ts:8-14 | a name's sort key is its code points |
| Sorting.Insert | backend/src/models/School.ts:8-14 | inserting into a sorted table keeps it sorted and adds exactly the row |
| Sorting.SortBy | backend/src/models/School.ts:8-14 | `ORDER BY` yields a sorted permutation of the table |
| Text.LowerChar | backend/src/models/User.ts:55 | an ASCII capital becomes its lower-case letter; every other character is kept |
| Text.ToLower | backend/src/models/User.ts:86 | lower-casing maps each character |
| Text.ToLowerNormalizes | backend/src/models/User.ts:55 | lower-casing yields lower case, is idempotent, and keeps a lower-case text |
| Text.ContainsAt | backend/src/controllers/AuthController.ts:215-225 | a text contains a word it holds at some position |
| Text.NoBigram | backend/src/controllers/AuthController.ts:215-225 | a text in which a word's first two letters never stand side by side does not contain it |
| Text.Split | backend/src/utils/jwt.ts:143 | the pieces contain no separator and join back to the text |
| Text.SplitWithout | backend/src/utils/jwt.ts:143-146 | a text without the separator is one piece |
| Text.SplitAtFirst | backend/src/utils/jwt.ts:143-146 | splitting at the first separator peels off the first piece |
| Text.TrimStart | backend/src/database/migrate.ts:20 | only leading whitespace is removed |
| Text.TrimEnd | backend/src/database/migrate.ts:20 | only trailing whitespace is removed |
| Text.DigitChar | backend/src/models/User.ts:25 | a digit value's character is a digit |
| Text.NatToString | backend/src/models/User.ts:25 | the decimal spelling is digits with the number's value |
| Text.DigitPrefix | backend/src/models/User.ts:25 | the longest run of leading digits |
| Text.ParseIntOfNatToString | backend/src/models/User.ts:25 | `parseInt` reads back what `String(n)` writes |
| Text.ParseIntStopsAtNonDigit | backend/src/models/User.ts:25-26 | `parseInt` stops at the first non-digit, so a room such as '214B' is on floor 2, unless the number is 0 and an `x` follows |
| Text.HexPrefix | backend/src/models/User.ts:25 | the longest run of leading hexadecimal digits |
| Text.LeadingDigit | backend/src/models/User.ts:25 | the decimal spelling of a positive number does not start with 0, so it never reads as a `0x` prefix |
| Text.ParseIntHex | backend/src/models/User.ts:25 | after `0x`, `parseInt` without a radix reads the hexadecimal digits up to the first other character |
| Users.HexRoomFloor | backend/src/models/User.ts:25-26 | a room written '0x' and hexadecimal digits is on the floor of the hexadecimal number |
| Users.HexOneF4 | backend/src/models/User.ts:25-26 | the hexadecimal digits 1F4 spell 500, so the room '0x1F4' is on floor 5 |
| Users.GradeLevel | backend/src/models/User.ts:19-22 | defines the clamped grade level; stated by GradeLevelClamped |
| Users.RoomFloor | backend/src/models/User.ts:25-26 | defines the floor of a room; stated by NoFloorNoRule and HexRoomFloor |
| Users.CreateOutcome | backend/src/models/User.ts:7-75 | defines `create`'s outcome; stated by CreateRoomRule, CreateStores and CreateThenFind |
| Users.AssignUser | backend/src/models/User.ts:132-163 | defines what the store makes of one `column = value`; stated by AssignUserAccepts and AssignUserFacts |
| Users.ResetAllowed | backend/src/models/User.ts:258-270 | defines the reset check: a row with the token whose expiry is ahead; stated by ResetConsumes and SetResetFacts |
| Text.DigitIsNoSpace | backend/src/models/User.ts:25-26 | a digit is not whitespace and not a sign |
| Text.DigitPrefixOf | backend/src/models/User.ts:25 | the digit run of digits followed by a non-digit is those digits |
| Text.Contains | backend/src/controllers/AuthController.ts:215 | defines `includes`; stated by ContainsAt and NoBigram |
| Text.ParseInt | backend/src/models/User.ts:25 | defines `parseInt` without a radix, `0x` included; stated by ParseIntOfNatToString, ParseIntStopsAtNonDigit and ParseIntHex |

## Left out

- bcrypt: a hash is the password it came from with its salt, and `compare` is equality of passwords. The cost factor and the real hash function are not modelled.
- jsonwebtoken: a token is a record written out as numbers (`TokenCodec`), and its signature is the secret that signed it. Forgery, algorithms and the library's own claim checks beyond `exp` and `nbf` are not modelled. Lifetimes cover the units the backend uses, not all of the `ms` syntax.
- `crypto.randomBytes`, `uuid`, the clock and the current year are parameters.
- Database faults are parameters, and only where the source reacts to them in its own way. Read faults in the temperature handlers are not modelled; they would answer 500.
- The check-then-insert race in `submitVote` is not modelled. Votes are submitted one at a time, so one-vote-per-day is proved only for sequential use.
- Joi validation (`backend/src/middleware/validation.ts`) is not part of this model. Handlers take the body as it arrives, so the vote range 65–80 and the minimum password length of 8 are not preconditions.
- `findBySchool`, `verifyPassword` as a separate call, `logout` and `getProfile` are not modelled. They are plain reads with no rule of their own.
- The `backend/dist` files, `server.ts`, `connection.ts`, the logger, sockets, `asyncHandler` and `gracefulShutdown` are process plumbing and are not modelled.
- The routes in `auth.ts`, `temperature.ts`, `requests.ts` and `users.ts` are wiring only and are not modelled.
- Temperature.TemperatureStore.SubmitVote: the minimum and maximum of a zone are whole degrees, and temperatures are exact reals, not IEEE doubles.
- Temperature.Day: calendar days are UTC days of the millisecond clock, not the database's time zone.
- Sorting.SortBy: `ORDER BY name` compares code points, as the C collation does; other collations are not modelled.
- Requests.NewRowFacts: a new request's upvotes are 0, assuming the column's default.
- The foreign key from `temperature_history` to the zones, and the check constraint on request statuses, are not modelled. `updateZoneTemperature` and `updateStatus` accept any zone id or status.
- Requests.Author: the join takes the first user row with the author's id.
- AccessControl.AuthenticateGate: a missing token is treated like the empty one, as the source's test on its truthiness does.
- Users.AssignUserFacts: `null` in `full_name` is refused, on the assumption that the column is NOT NULL; the table schema is not part of this model.
- Users.AssignUserAccepts: a preferences object given for a text column is refused, where `pg` would store its text form. JSON values other than `null`, a text and a preferences object (numbers, booleans, arrays, other objects) are not represented.
- Schools.AssignSchoolFacts: `null` in `name` or `timezone` is refused, on the assumption that those columns are NOT NULL; the table schema is not part of this model.
- Schools.AssignSchoolAccepts: as for users, a settings object given for a text column is refused. JSON values other than `null`, a text and a settings object of text values are not represented.
- Users.CreateStores: the columns `create` leaves out take the values the model gives them. The user is active and unverified, and has no tokens, no last login, no photo and no emergency contact. These are assumed to be the column defaults; the table schema is not part of this model.
- Text.ToLower: lower-cases the ASCII capitals only. `toLowerCase` also lowers other capitals, such as 'É' in 'Émile@x.com', which the model keeps as they are. Text.LowerChar stays ASCII on purpose, because `camelToSnake` only rewrites `[A-Z]`.
- Text.ParseInt: the value is an exact integer. `parseInt` rounds numbers beyond 2^53 to the nearest double.
- Users.CreateStores: a unique violation on the id is reported as 'Email already exists', as for the e-mail.
- SchoolRoutes.SchoolStatsRouteFacts: the handler's branch for a missing user cannot be reached after `requireRole`, and is answered as 401 there.
