# A verified model of goauth-server

goauth-server is an OAuth 2.0 authorization server. This project models the parts of it whose
correctness is a property of whole runs and not of a single call, and proves those properties:

1. **The token lifecycle** (`Tables`, `Lifecycle`, `Invariant`, `Preservation`, `Runs`, `TokenTheorems`,
   `Provenance`, `Revocation`, `TokenAnswers`, `SessionAnswers`, `Administration`, `Cleanup`, `Service`). The state is the client, user, authorization code, access
   token and refresh token tables and a clock that does not go back. One event is one service call: web login and
   callback, code exchange, refresh rotation with replay detection, RFC 7009 revocation, logout, direct login,
   password change, the administrator's revocations, expiry cleanup, and a request checked by the auth middleware.
   Any repository operation, signature or random draw of a call may fail, and the call then ends or goes on as the
   code does, with its earlier writes in place. `TokenAnswers`, `SessionAnswers` and `Administration` say of each
   endpoint, in terms of the rows alone, exactly when it succeeds, what it then hands out and writes, and which error
   every other request gets. `Service` writes the calls as methods on tables that change in
   place and proves each equal to its function in `Lifecycle`.
2. **The login lockout** (`Lockout`): counter, last failure and lock of one account, what each attempt is answered,
   and the number of password guesses a run can get.
3. **The keyed rate limiter** (`RateLimit`, `RateLimitTheorems`, `RateLimitTight`, `RateLimitRounding`, `Numbers`):
   token buckets made on first use and evicted by a background tick, compared with a limiter that never forgets;
   runs that show the conditions to be exact; and the limiter whose buckets are rounded.
4. **Text codecs** (`Base64`, `Text`, `PasswordHash`, `SessionCookie`, `Envelope`): base64 without padding as in
   sections 3.2, 4 and 5 of RFC 4648, the stored password string, the signed session cookie, and the envelope of
   provider secrets.
5. **The provider store** (`ProviderStore`): encrypted secrets at rest against a plain store, and every stored provider
   against the history of the calls that were answered with success.

`dafny verify dfyconfig.toml` checks the whole project.

## What is assumed

- SHA-256, the JWT signature, HMAC, Argon2id, AES-GCM and JSON are parameters of the model. The laws asked of them
  are named predicates: `Lifecycle.Lawful`, `SessionCookie.JsonLaw`, `PasswordHash.KeyLengthLaw`,
  `Envelope.AeadLaw`. Cleanup being invisible also asks that a presented token with the hash of an issued one is
  that token (`Cleanup.NoCollision`).
- `Invariant.Admissible` says what may happen: the clock does not go back, new ids, codes and token hashes are new,
  and a cookie whose signature verifies carries a payload the server signed.
- `Ledger` records everything ever stored, so that theorems can speak about rows that are gone. The program has
  no such record; no call's answer or table write depends on it.
- Where code and comment disagree the code is followed: the comment at
  `internal/service/auth/authorization.go:364-365` has an unknown token count as revoked, the code below it does not.

## Properties that hold only under a condition

- **Throughput.** The program's buckets are floating-point numbers. `RateLimitRounding` lets every request carry a
  rounding error of at most eps in the tokens it finds and of at most delta in the comparison with a whole token.
  Then the allowed requests of a key in any stretch satisfy the bound of `RoundedThroughput`: a full bucket, the inflow
  of the stretch and one nanosecond more, one eps for each request of the key, and one delta. The bound one would
  expect, burst + perMin * W / 60 for W seconds, holds in all runs exactly when the burst is zero, or there is no
  error at all, perMin divides 60 * 10^9 and perMin * (ttl + 1 ns) covers the burst (`RoundedNominalIff`). So it is a
  fact of exact arithmetic only (`NominalThroughputIff`): with errors however small, `RoundingShows` names a run that
  exceeds it, and without them `EarlyGrant` and `EvictedGrant` do when one of the other two conditions fails.
- **Eviction.** Exact buckets answer every request as if none were ever evicted exactly when
  gcd(60 * 10^9, perMin) + perMin * ttl covers the burst (`EvictionInvisibleIff`, for every rate, burst and time to
  live), as it does on every route (`RoutesRefill`). Otherwise `EvictionShows` names a run: empty the bucket as far as
  it goes, let it be evicted, and do it again. With rounded buckets it is enough that perMin * ttl covers the burst,
  delta, and an eps for each request of the key so far (`RoundedEvictionIsInvisible`).
- **Revocation under a wrong hint.** Section 2.1 of RFC 7009 has a server extend its search when the hint does not
  help. The code does so unless the hint is `access_token` and the token is a live refresh token: exactly then the
  hint makes a difference, and nothing is revoked (`HintMattersIff`).
- **Who may revoke.** The same section has the server check that the token was issued to the client that asks. The
  code authenticates the caller and then forgets who it is. So only the token's own client can revoke it exactly when
  there is nothing to revoke or nobody else can authenticate (`OnlyOwnClientRevokesIff`); a second active client can
  (`OtherClientRevokes`).
- **Other spellings of a token.** Revocation goes by the hash of a token's exact text. Every text that verifies to the
  claims of a revoked token is refused exactly when the claims are out of time or each other such text is itself
  stored and revoked (`SpellingsRefusedIff`). Base64 as decoded here gives a byte string one spelling exactly when its
  length is a multiple of three (`OneSpellingIff`); an ECDSA P-256 signature has 64 bytes.
- **Logging out.** The token that logged out is refused afterwards exactly if the server keeps a row of it
  (`LoggedOutIsRefusedIff`).
- **After a password change.** A login is no longer challenged exactly when the flag could be cleared; if only that
  write failed the new password is in force and the challenge stays (`ChallengedNoMoreIff`).
- **Finding a user again.** A second login with the same provider identity finds the account of the first exactly
  when neither the provider's name nor its subject is empty (`UpsertFindsAgain`).

## Model

| member | source | states |
|---|---|---|
| Preservation.StepInv | internal/service/auth/rotation.go:27-174 | every event, whichever of its operations fail, keeps the invariant that ties the rows of all tables to what was issued |
| Preservation.TighteningEvents | internal/service/session/session.go:140-247 | revocation, logout, cleanup and administration add no row, never un-revoke or un-use one, delete access tokens only when expired and clear a link only when its target is gone |
| Preservation.CallbackIsApproved | internal/transport/http/web/handler/auth_handler.go:125-164 | the cookie of an accepted callback names a client and redirect URI that passed the registration check |
| Runs.RunInv | internal/service/auth/rotation.go:27-174 | the invariant holds at every point of every run |
| Runs.ScratchIsRun | internal/service/auth/authorization.go:108-177 | what starts from an empty database is a run, so the theorems hold of it with no further assumption |
| Runs.RunExtends | internal/service/auth/authorization.go:182-314 | every admissible event can happen next and extends the run by what the model makes of it, so statements about runs are about all of them |
| Runs.StepSummary | internal/repository/refresh_tokens.sql.go:196-243 | one event keeps every old refresh token no livelier than it was, adds one only by an exchange (new family) or a rotation of a live token (same family), and a rotated token was live and no longer is |
| Runs.HistoryGrows | internal/repository/refresh_tokens.sql.go:27-40 | nothing issued is ever reissued or altered and the clock never goes back |
| TokenTheorems.OneLiveThroughout | internal/service/auth/rotation.go:58-145 | at every point of every run two live refresh tokens of one family are the same token |
| TokenTheorems.DeadFamilyStaysDead | internal/service/auth/rotation.go:58-84 | once a family has no live token it never has one again, and every later rotation of one of its tokens is refused |
| TokenTheorems.RotatedAtMostOnce | internal/service/auth/rotation.go:96-99 | in any run a refresh token value is rotated successfully at most once, also after failed writes and deletion of its row |
| TokenTheorems.RedeemedAtMostOnce | internal/service/auth/authorization.go:214-234 | in any run an authorization code is exchanged successfully at most once (section 4.1.2 of RFC 6749) |
| TokenTheorems.RevokedUserCannotRotate | internal/service/auth/authorization.go:351-356 | after a logout, administrative revocation or password change applied its refresh-token revocation, no rotation for that user succeeds until a code exchange hands out a new refresh token |
| TokenTheorems.LiveTokensBounded | internal/service/auth/authorization.go:270-290 | a user's live refresh tokens never outnumber the code exchanges that issued one to the user |
| TokenTheorems.GrantsFoundFamilies | internal/service/auth/authorization.go:270-290 | in a run from an empty database the families of a user number exactly the exchanges that issued the user a refresh token |
| Provenance.OneChainThroughout | internal/service/auth/rotation.go:107-145 | in every state of every run the previous-token links of a family form one acyclic chain that ends at the token issued for the family's code |
| Provenance.RefreshProvenance | internal/service/auth/rotation.go:91-145 | every stored refresh token derives from exactly one redeemed code with its client, user and scope, and a code founds one family |
| Provenance.AccessProvenance | internal/service/auth/authorization.go:248-268 | every stored client-bound access token derives from a redeemed code with its client, user and scope |
| Provenance.LinksAreExact | internal/service/auth/rotation.go:121-145 | a previous-token link is there exactly for the stored parent, which is used and revoked, and no two refresh tokens link to one access token |
| Provenance.NonLastAreUsed | internal/service/auth/rotation.go:91-99 | every stored token of a family but the newest issued one is used and revoked |
| Provenance.CodeWasApproved | internal/service/auth/authorization.go:76-79 | every stored code's client and redirect URI passed the registration check of an active client at an earlier login of the run |
| Provenance.ExchangeWasApproved | internal/service/auth/authorization.go:224-229 | so a successful exchange names a redirect URI that was registered for that very client when the flow began |
| Revocation.RevocationIsPermanent | internal/service/auth/authorization.go:366-377 | once a stored access token is revoked, the JWT it was issued as is refused at every later point of the run, even after cleanup deleted the row |
| Revocation.SpellingsRefusedIff | internal/service/auth/authorization.go:366-377 | exactly when every text that verifies to the claims of a revoked token is refused too |
| Base64.OneSpellingIff | internal/service/auth/token.go:124-143 | a byte string has one spelling the decoder accepts exactly when its length is a multiple of three |
| Revocation.DeadIsRefused | internal/middleware/auth.go:45-70 | an issued access token whose row is revoked or gone is refused by the middleware, because its JWT expires no later than its row |
| Revocation.RevocationEffect | internal/service/auth/revoke.go:23-111 | exactly which rows RFC 7009 revocation changes under each hint, and that nothing else in any table changes |
| Revocation.RevokedTokenIsUnusable | internal/service/auth/revoke.go:53-89 | revoking a live refresh token leaves its whole family without a live token and its access token unusable |
| Revocation.RevocationIsIdempotent | internal/service/auth/revoke.go:23-48 | repeating a revocation changes nothing more |
| Revocation.HintMattersIff | internal/service/auth/revoke.go:23-48 | a hint changes the outcome exactly when it says access token and the token is a live refresh token, and then nothing is revoked |
| Revocation.OnlyOwnClientRevokesIff | internal/transport/http/api/v1/handler/revoke_handler.go:29-64 | exactly when only the client a token was issued to can revoke it: there is nothing to revoke, or nobody else can authenticate |
| Revocation.AnyCallerRevokes | internal/transport/http/api/v1/handler/revoke_handler.go:29-64 | a request changes the tables exactly when its caller authenticates and the token is one that can be revoked, whoever the caller is |
| Revocation.OtherClientRevokes | internal/transport/http/api/v1/handler/revoke_handler.go:29-64 | a second active client can revoke the token of the first |
| Cleanup.CleanupIsInvisible | internal/service/session/session.go:233-247 | inserting cleanups anywhere in a run, in time order, gives a run again, and changes no answer of the token endpoint and no decision of the auth middleware |
| Cleanup.StepSim | internal/transport/http/api/v1/handler/auth_handler.go:160-205 | an event that happens in a cleaned and an uncleaned state keeps them related and looks the same to the client |
| Cleanup.CleanupSim | internal/repository/access_tokens.sql.go:78-86 | a cleanup that happens on one side only keeps the two states related |
| Revocation.OnlyThisIsUsed | internal/repository/refresh_tokens.sql.go:196-205 | in a reachable state, marking a token used changes its own row and no other |
| Revocation.ReplayKillsFamily | internal/repository/refresh_tokens.sql.go:223-237 | replay detection leaves the family of the presented token without a live token and every token of another family as it was |
| Revocation.CleanupIsExact | internal/repository/access_tokens.sql.go:78-86 | exactly the expired access tokens go, and a refresh token keeps its link exactly when the access token it was issued with is still stored |
| TokenAnswers.TokensIff | internal/service/auth/authorization.go:182-314 | every exchange of every run is answered with tokens exactly when the client is registered and active and gave its secret, the code is stored, unrevoked, unused, unexpired and was issued to that client for that redirect URI, its user exists and nothing fails; and every rotation likewise for its token |
| TokenAnswers.RotatedOnlyForItsClient | internal/service/auth/rotation.go:31-99 | in every run a rotated token was live and unexpired, and the request came from the client it was issued to, active and with its secret |
| TokenAnswers.ExchangeSucceedsIff | internal/service/auth/authorization.go:182-314 | the condition of one exchange, both ways, for every set of failing operations |
| TokenAnswers.ExchangeAnswer | internal/service/auth/authorization.go:231-314 | the tokens of an exchange and every row after it: the code marked used, the access token, and a refresh token with its family, scope and lifetime exactly when the client may have one and offline access was granted; no other row changes |
| TokenAnswers.ExchangeRefusals | internal/service/auth/authorization.go:189-229 | which error each refused exchange gets, in the order of the checks, and that no table changes |
| TokenAnswers.FailedExchangeCostsTheCode | internal/service/auth/authorization.go:231-290 | an exchange that fails once the code is marked used leaves the code used and issues no refresh token |
| TokenAnswers.RotationSucceedsIff | internal/service/auth/rotation.go:27-174 | the condition of one rotation, both ways, for every set of failing operations |
| TokenAnswers.RotationAnswer | internal/service/auth/rotation.go:96-174 | the tokens of a rotation and every row after it: the presented token spent, its successor in the same family linked to it, the new access token; no other row changes |
| TokenAnswers.RotationRefusals | internal/service/auth/rotation.go:31-94 | which error each refused rotation gets, and that only the replay of a revoked token changes a table |
| TokenAnswers.FailedRotationSpendsTheToken | internal/service/auth/rotation.go:96-145 | a rotation that fails once its token is marked used leaves the family without a live token |
| TokenAnswers.RevocationAnswersIff | internal/transport/http/api/v1/handler/revoke_handler.go:29-108 | a revocation request is done exactly for an active client with its secret or a user token that is in time and not revoked; any other is unauthorized and changes nothing |
| SessionAnswers.StoredTokenAdmittedIff | internal/service/auth/token.go:89-107 | at every point of every run the JWT of a stored access token is let in, as the user of its row, exactly from the second it was issued until the second it expires while it is not revoked |
| SessionAnswers.RequestAdmittedIff | internal/middleware/auth.go:45-70 | a request is let in exactly when its token verifies, is in time and is not stored as revoked, and changes no table |
| SessionAnswers.LogoutAnswersIff | internal/transport/http/api/v1/handler/auth_handler.go:218-247 | logout is done exactly for a token that is let in; any other changes nothing |
| SessionAnswers.LogoutEffect | internal/transport/http/api/v1/handler/auth_handler.go:218-247 | it revokes the presented token and the live refresh tokens of its user, and no other row changes |
| SessionAnswers.LoggedOutIsRefusedIff | internal/service/auth/authorization.go:334-336 | the token that logged out is refused afterwards exactly if it was stored |
| SessionAnswers.LoginSucceedsIff | internal/transport/http/api/v1/handler/login_handler.go:71-112 | a login is challenged exactly when the user must change the password and the challenge can be signed, and gets a token exactly when the user need not and nothing fails |
| SessionAnswers.LoginEffect | internal/transport/http/api/v1/handler/login_handler.go:89-112 | one new token that names the user and belongs to no client; every older token of the user is revoked and no other row changes |
| SessionAnswers.PasswordChangeSucceedsIff | internal/service/auth/change_password.go:43-102 | exactly when a password change gets a token |
| SessionAnswers.PasswordChangeRefusals | internal/service/auth/change_password.go:43-59 | which error each refused password change gets, and that no table changes |
| SessionAnswers.PasswordChangeEffect | internal/service/auth/change_password.go:66-102 | the new hash is stored and the flag cleared for that user alone, the user's refresh tokens are revoked, one access token is added |
| SessionAnswers.ChallengedNoMoreIff | internal/service/auth/change_password.go:66-79 | the next login is unchallenged exactly when the flag could be cleared |
| SessionAnswers.WebLoginAnswersIff | internal/service/auth/authorization.go:56-104 | a login is sent to the provider, with the cookie of its session, exactly for an active client, a registered redirect URI and an enabled provider |
| SessionAnswers.WebCallbackAnswersIff | internal/service/auth/authorization.go:108-177 | a callback issues a code, for five minutes and with the session's redirect URI and scope, exactly when cookie and request agree, client and provider are active and an account is found or can be made; it is a bad session exactly when they do not agree |
| SessionAnswers.OwnCallbackIssuesCode | internal/transport/http/web/handler/auth_handler.go:21-183 | in every run the cookie of a login, whatever happened since, serves a callback with that login's state, client and provider and no other, and leads to a code for what the login asked for |
| Administration.RevokeCodeEffect | internal/service/session/session.go:140-153 | the code with the given id is revoked if it is stored, and no other row changes |
| Administration.RevokeAccessEffect | internal/service/session/session.go:200-230 | exactly the access tokens with the given id, user or client are revoked |
| Administration.RevokeRefreshEffect | internal/transport/http/api/v1/handler/admin_lockout.go:78-100 | exactly the live refresh tokens of the user are revoked |
| Administration.CodeCleanupEffect | internal/repository/authorization_codes.sql.go:99-107 | cleanup deletes exactly the expired codes, deleting a provider exactly its codes |
| Administration.PurgeEffect | internal/repository/refresh_tokens.sql.go:84-92 | the purge deletes exactly the expired refresh tokens and clears exactly the links to them |
| Administration.RevokedCodeNeverRedeemed | internal/service/auth/authorization.go:214-217 | in every run, once a code is revoked no exchange of it is answered with tokens, even after its row is deleted |
| Service.AuthenticateClient | internal/service/auth/authorization.go:189-203 | the in-place check passes exactly a registered, active client with its secret, and otherwise gives the error of the first check that fails |
| Service.ExchangeCodeForToken | internal/service/auth/authorization.go:182-314 | the in-place call is the lifecycle's exchange for every set of failing operations, and hands out tokens only to an authentic client for a live code of its own |
| Service.RotateRefreshToken | internal/service/auth/rotation.go:27-174 | the in-place call is the lifecycle's rotation for every set of failing operations, and hands out tokens only to an authentic client for a live token of its own |
| Service.RevokePresentedToken | internal/service/auth/revoke.go:23-48 | the in-place call is the lifecycle's revocation |
| Service.HandleRevocation | internal/transport/http/api/v1/handler/revoke_handler.go:29-108 | the in-place endpoint is done exactly for a known caller, changes nothing for any other, and hides failures of the revocation |
| Service.CheckBearer | internal/middleware/auth.go:45-70 | the in-place check of a bearer token is the lifecycle's admission |
| Service.RevokeRefreshTokenAndLinkedAccess | internal/service/auth/revoke.go:53-89 | the in-place helper is the lifecycle's revocation of a refresh token and its linked access token |
| Service.RevokeAccessTokenRecord | internal/service/auth/revoke.go:93-111 | the in-place helper is the lifecycle's revocation of an access token |
| Service.IdsStayUnique | internal/repository/access_tokens.sql.go:36-45 | the invariant gives the unique ids the revocation methods ask for |
| Service.LogoutCaller | internal/transport/http/api/v1/handler/auth_handler.go:218-247 | the in-place call is the lifecycle's logout |
| Service.StoreDirectLoginToken | internal/service/auth/token.go:110-122 | the in-place call is the lifecycle's storing of a login token, which belongs to no client |
| Service.LoginVerified | internal/transport/http/api/v1/handler/login_handler.go:71-112 | the in-place call is the lifecycle's login: it challenges exactly a user who must change the password, and a token is only handed out with all older ones revoked |
| Service.ChangePasswordOf | internal/service/auth/change_password.go:43-102 | the in-place call is the lifecycle's password change, its writes in order; on success the new hash is stored and the flag cleared, and the flag was set and the policy met before |
| Service.CleanupCodes | internal/service/session/session.go:233-238 | on success a code is stored afterwards exactly if it was stored and has not expired, and unchanged; on failure, and otherwise, nothing changes |
| Service.CleanupTokens | internal/service/session/session.go:242-247 | on success an access token is stored afterwards exactly if it was stored and has not expired, unchanged, no refresh token comes or goes, and every link left leads to a stored token; on failure nothing changes |
| Service.UpsertProviderUser | internal/service/auth/authorization.go:381-423 | the in-place call finds or creates the user of a provider identity, empty parts of it stored as NULL, or fails and changes nothing |
| Lifecycle.UpsertFindsAgain | internal/service/auth/authorization.go:381-423 | a second login with the same identity finds the same account and changes nothing, exactly when no part of the identity is empty |
| Service.HandleCallback | internal/service/auth/authorization.go:108-177 | the in-place call is the lifecycle's callback |
| Lockout.UserRow.VerifyCredentials | internal/service/auth/login.go:41-135 | the in-place call verifies exactly an unlocked account with the right password whose writes succeed, says it is locked until a time exactly when the row then is, and otherwise is the lockout function, for every set of failing writes |
| Lockout.UserRow.IncrementFailedLoginAttempts | internal/repository/users.sql.go:331-341 | the statement counts one failure, dates it and leaves the lock alone |
| Lockout.UserRow.ResetLoginAttempts | internal/repository/users.sql.go:481-492 | the statement clears counter, last failure and lock |
| Lockout.AnswersIff | internal/service/auth/login.go:41-135 | every attempt of every run is answered "verified" exactly when the account is not locked, the password matches and no write it reaches fails; "locked until u" exactly when it leaves the account locked until u; "invalid" and "error" exactly in the remaining cases |
| Lockout.AccountAfterAttempt | internal/service/auth/login.go:51-121 | what an attempt leaves: it locks exactly on a recorded failure that reaches the limit within the window, for one duration |
| Lockout.AdmittedOnlyByMatch | internal/service/auth/login.go:115-135 | in every run the attempts that are let in never outnumber those with the right password |
| Lockout.CounterCountsFailures | internal/service/auth/login.go:51-121 | in every reachable state the counter is the number of failures recorded since it was last cleared, that of the clearing attempt included |
| Lockout.LockInvariant | internal/service/auth/login.go:81-103 | in every reachable state a lock implies a counter at the limit, and it ends exactly one lockout duration after the last failure |
| Lockout.LockHolds | internal/service/auth/login.go:51-66 | from the moment it is set until it runs out a lock stops every attempt before the password is compared |
| Lockout.GuessBound | internal/service/auth/login.go:51-103 | in any run from a clean counter the wrong passwords compared number at most M * (1 + S + T / Duration) + T / Window + U + F, for S successes, U unlocks, F calls with a failed write, time span T and M = max(MaxAttempts, 2) |
| Lockout.GuessBoundPlain | internal/service/auth/login.go:51-103 | without success, unlock or failed write: at most M * (1 + T / Duration) + T / Window |
| Lockout.UnreachedFaultsAreHarmless | internal/service/auth/login.go:41-135 | a call counted as without failed write does what it would do if no write could fail |
| RateLimit.KeyedLimiter.Request | internal/middleware/ratelimit.go:57-68 | the in-place call finds or makes the key's bucket and answers as the limiter function says |
| RateLimit.KeyedLimiter.Cleanup | internal/middleware/ratelimit.go:71-83 | the deleting loop keeps exactly the entries used within the time to live |
| RateLimitTheorems.RetryAfterIsExact | internal/middleware/ratelimit.go:87-96 | waiting the advertised seconds makes the request allowed, and unless it was clamped to 1 no smaller whole number does |
| RateLimitTheorems.RetryAfterHolds | internal/middleware/ratelimit.go:102-124 | between two requests of a run, whatever other keys and cleanup ticks come between, the advertised wait suffices; and if buckets refill before they can be evicted nothing shorter does, unless it was clamped |
| RateLimitTheorems.RoutesRefill | internal/middleware/ratelimit.go:102-110 | with burst = perMin and a time to live of five minutes a bucket refills before it can be evicted |
| RateLimitTheorems.EvictionIsInvisible | internal/middleware/ratelimit.go:57-83 | with exact buckets every request gets the answer, Retry-After included, that a limiter that never forgets would give |
| RateLimitRounding.RoundedEvictionIsInvisible | internal/middleware/ratelimit.go:57-83 | with rounded buckets too, under the same errors, as long as the time to live covers the burst and the errors of the key's requests so far |
| RateLimitTight.EvictionInvisibleIff | internal/middleware/ratelimit.go:71-83 | for every rate, burst and time to live, eviction is invisible in all runs exactly when gcd(60 * 10^9, perMin) + perMin * ttl covers the burst |
| RateLimitTight.EvictionShows | internal/middleware/ratelimit.go:71-83 | otherwise some run gets another answer than without eviction |
| RateLimitTheorems.Throughput | internal/middleware/ratelimit.go:102-124 | with exact buckets, over any stretch of any run, ticks included, a token for each allowed request of a key costs at most a full bucket and the inflow of W + 1 ns, less what divides both a token and a nanosecond's inflow |
| RateLimitRounding.RoundedThroughput | internal/middleware/ratelimit.go:102-124 | the bound for rounded buckets: over any stretch of any run whose errors are within (eps, delta), that cost is less than a full bucket, the inflow of W + 1 ns, one eps for each request of the key and one delta |
| RateLimitRounding.DriftIsProduct | internal/middleware/ratelimit.go:102-124 | the errors of n requests in that bound come to n times eps |
| RateLimitRounding.RoutesRefillAnyway | internal/middleware/ratelimit.go:102-110 | every route meets the condition of that bound |
| RateLimitRounding.WithoutErrorsExact | internal/middleware/ratelimit.go:57-68 | without errors the rounded limiter grants what the exact one grants |
| RateLimitRounding.RoundingShows | internal/middleware/ratelimit.go:102-124 | for errors however small, a run that exceeds burst + perMin * W / 60 |
| RateLimitRounding.RoundedNominalIff | internal/middleware/ratelimit.go:102-124 | exactly when that nominal bound holds in all runs within (eps, delta) |
| RateLimitTight.NominalThroughputIff | internal/middleware/ratelimit.go:102-124 | exactly when the nominal bound holds in all runs with exact buckets |
| RateLimitTight.EarlyGrant | internal/middleware/ratelimit.go:102-124 | a run that exceeds it for every rate that does not divide 60 * 10^9 |
| RateLimitTight.EvictedGrant | internal/middleware/ratelimit.go:71-83 | a run that exceeds it whenever a bucket can be evicted before it has refilled |
| RateLimitTheorems.EntriesDoNotLinger | internal/middleware/ratelimit.go:71-83 | with ticks every time to live, before the first one too, no entry outlives its last use by more than twice that |
| Base64.RoundTrip | internal/transport/http/web/handler/session.go:27-40 | decoding an encoded byte string of any length gives it back, in either alphabet |
| PasswordHash.PhcRoundTrip | internal/service/auth/change_password.go:106-128 | a printed password string has six parts and parses to exactly what was printed, for all parameters, salts and hashes |
| PasswordHash.VerifyArgon2id | internal/service/auth/login.go:141-181 | the loop over the parameters is the parser followed by the key comparison, malformed strings and those the key derivation refuses included |
| PasswordHash.VerifiesExactly | internal/app/auth-server/bootstrap.go:35-63 | against a string from either printer a password verifies exactly when it derives the same key |
| SessionCookie.SessionRoundTrip | internal/transport/http/web/handler/session.go:27-74 | every session survives its cookie |
| SessionCookie.AcceptedSessionWasSigned | internal/transport/http/web/handler/session.go:44-74 | a cookie is accepted only if its signature verifies, and its session is determined by the signed text alone |
| Envelope.EnvelopeRoundTrip | internal/service/provider/encryption.go:15-65 | decrypting an encrypted secret of any length gives it back |
| Envelope.EnvelopeLayout | internal/service/provider/encryption.go:15-34 | an envelope is the nonce drawn for it followed by the text sealed under that nonce |
| ProviderStore.ProviderService.CreateProvider | internal/service/provider/provider.go:195-227 | the in-place call is the store's create step |
| ProviderStore.ProviderService.UpdateProvider | internal/service/provider/provider.go:231-274 | the in-place call is the store's update step, which keeps the stored secret when none is given |
| ProviderStore.ProviderService.Administer | internal/service/provider/provider.go:277-335 | the in-place calls succeed exactly for a stored provider of that client and then set the flag, clear it or delete the row, and no other row changes |
| ProviderStore.StoreRefinesPlain | internal/service/provider/provider.go:195-335 | after any run the encrypted store holds what a store of plain secrets holds and answered the last call alike; `StoreIsAsDescribed` says what that is |
| ProviderStore.RepliesAgree | internal/service/provider/provider.go:195-335 | every call of a run gets the answer the plain store gives |
| ProviderStore.StoreIsAsDescribed | internal/service/provider/provider.go:195-320 | over every run a provider is stored exactly when it was created and not deleted since, with the client and name of its creation, the details of the last successful create or update and the flag of the last successful create, update, enable or disable |
| ProviderStore.CreateAnswersIff | internal/service/provider/provider.go:195-227 | exactly when a creation of a run is invalid, fails, is a duplicate or succeeds |
| ProviderStore.OthersAnswered | internal/service/provider/provider.go:231-335 | every other call of a run is answered by the first check that refuses it, given what earlier calls made of the provider |
| ProviderStore.SecretIsLastSupplied | internal/service/provider/provider.go:146-165 | reading a stored provider's secret yields the last non-empty secret a successful call supplied for it |
| ProviderStore.OtherClientsUntouched | internal/service/provider/provider.go:323-335 | a call made for one client changes no other client's providers |
| ProviderStore.ClientsAreIndependent | internal/service/provider/provider.go:195-335 | over every run with new ids, one client's providers are what they would be had only that client's calls been made |
| ProviderStore.AnswersAreIndependent | internal/service/provider/provider.go:195-335 | and so are the answers it gets, but that another client's provider is told apart from a missing one |

## Left out

- Statements of two calls are not interleaved: the code uses no transactions, and each call is one event here with one reading of the clock.
- HTTP, request binding, headers, CORS, CSRF, metrics, logging and audit writes: no state the theorems speak about.
- The network calls to identity providers: what a provider answers is an arbitrary input of the callback.
- The internals of SHA-256, HMAC, ECDSA, Argon2id, AES-GCM, JWT and JSON libraries: parameters with the laws named above.
- The revocation endpoint's form parsing: the token and the hint are inputs.
- Challenge tokens: login and password change start after the credentials or the challenge have been checked.
- Listing, counting, pagination, DTO mapping, configuration loading, URL validation and key parsing: they would only add easy members.
- The password policy and the validation of provider fields: boolean inputs.
- The maximum lifetime and the rotation switch of the configuration: loaded, but read by no modelled code.
- InitiateAuthorization, the cookie handlers and the auth middleware write no table and stay functions (`StartWebLogin`, `FinishWebLogin`, `Admit`).
- The administrator's single-statement revocations have no method of their own; they are events of `Lifecycle.Step`.
- Expired refresh tokens: no service call deletes them, but the statement exists and is one of the events.
- The 32-bit width of the failure counter in the database: the counter is unbounded here.
- The database's now() and the application's time.Now() are taken as one clock; that a deleted row's JWT has expired, and so the permanence of revocation, relies on it.
- RateLimit.KeyedLimiter.Request: buckets are exact, not float64, because the theorems on answers are about exact arithmetic; waits are whole nanoseconds rounded down as in golang.org/x/time/rate.
- RateLimitTheorems.Throughput: is about exact buckets, because rounding breaks it; `RateLimitRounding.RoundedThroughput` is the bound for rounded ones.
- RateLimitTight.NominalThroughputIff: is about exact buckets, because rounding breaks it; `RateLimitRounding.RoundedNominalIff` has the condition for rounded ones.
- RateLimitTheorems.EvictionIsInvisible: is about exact buckets, Retry-After included; `RateLimitRounding.RoundedEvictionIsInvisible` has the decision for rounded ones, because their Retry-After is not modelled.
- RateLimitTight.EvictionInvisibleIff: is about exact buckets, because how a run can empty a rounded bucket depends on its errors; the sufficient half for those is `RateLimitRounding.RoundedEvictionIsInvisible`.
- RateLimitTheorems.RetryAfterIsExact: is about exact buckets, because a rounded wait may be a nanosecond off.
- RateLimitTheorems.RetryAfterHolds: is about exact buckets, because a rounded wait may be a nanosecond off.
- Revocation.RevocationIsPermanent: is about the text a JWT was issued as, because the code refuses by exact text; `Revocation.SpellingsRefusedIff` has the condition for all texts.
- The size of the errors of float64: eps and delta are parameters.
- SessionCookie.SessionRoundTrip: text that is not valid Unicode, which a JSON library replaces, is outside the law assumed of it.
