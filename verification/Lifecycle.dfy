/**
 The token lifecycle as a state machine: one event is one service call, taking one
 reading of the clock, with its table writes in the order the code makes them. Any
 repository operation, signature or random draw in the event's `faults` fails, and
 the call then ends (or goes on) exactly as the code does.
 */
module Lifecycle {
  import opened Prelude
  import opened Tables
  import S = SessionCookie

  datatype Claims = Claims(user: Id, email: string, expiresAt: Time, notBefore: Time)

  /**
   What the server is configured with, and the cryptography it calls. `sign`
   takes the randomness of the signature as a second argument; `verify` answers the
   claims of a token whose signature is good.
   */
  datatype Config = Config(
    accessLifetime: Time,
    refreshLifetime: Time,
    sha256: string -> string,
    sign: (Claims, nat) -> string,
    verify: string -> Option<Claims>,
    cookies: S.Codec)

  /** The laws assumed of the signature scheme and the JSON library. */
  ghost predicate Lawful(cfg: Config) {
    && (forall c, n :: cfg.verify(cfg.sign(c, n)) == Some(c))
    && S.JsonLaw(cfg.cookies)
  }

  // ---------- History ----------

  /** The terms an authorization code was issued on. */
  datatype Grant = Grant(client: Id, user: Id, redirectUri: string, scope: Option<string>)

  /** An access token as it was issued; `code` is the code it derives from, if any. */
  datatype AccessOrigin = AccessOrigin(
    id: Id, jwt: string, client: Option<Id>, user: Id, scope: Option<string>, expiresAt: Time, code: Option<string>)

  /** A refresh token as it was issued: the `generation`-th of its family, replacing `parent`. */
  datatype RefreshOrigin = RefreshOrigin(
    id: Id, family: Id, generation: nat, parent: Option<string>, access: string, code: string)

  /**
   Everything ever stored, kept when rows are deleted. The code has no such ledger: it
   records history so that theorems can speak about rows that are gone.
   */
  datatype Ledger = Ledger(
    ids: set<Id>,
    approved: set<(Id, string)>,
    signed: map<string, S.Session>,
    codes: map<string, Grant>,
    redeemed: set<string>,
    access: map<string, AccessOrigin>,
    families: map<Id, string>,
    refresh: map<string, RefreshOrigin>)

  datatype World = World(
    now: Time,
    clients: map<Id, Client>,
    users: map<Id, User>,
    codes: Codes,
    access: AccessTokens,
    refresh: RefreshTokens,
    ledger: Ledger)

  const EMPTY_LEDGER := Ledger({}, {}, map[], map[], {}, map[], map[], map[])

  /** An empty database; clients and users may already be registered. */
  predicate Initial(w: World) {
    w.codes == map[] && w.access == map[] && w.refresh == map[] && w.ledger == EMPTY_LEDGER
  }

  // ---------- Events and responses ----------

  datatype Op =
    | GetClient | GetProvider | GetUserByProviderID | UpdateLastLogin | CreateUser | CreateAuthorizationCode
    | GetAuthorizationCode | MarkAuthorizationCodeUsed | GetUserByID | SignAccessToken | CreateAccessToken
    | GenerateToken | CreateRefreshToken | GetRefreshTokenByHash | RevokeRefreshTokenFamily | MarkRefreshTokenUsed
    | GetAccessToken | GetAccessTokenByID | RevokeRefreshToken | RevokeAccessToken | RevokeRefreshTokensByUser
    | RevokeAccessTokensByUser | UpdatePasswordHash | SetForcePasswordChange | SignChallengeToken | SoleStatement

  type Faults = set<Op>

  /** Random values a call may draw: the signature's nonce, row ids and a token value. */
  datatype Draws = Draws(nonce: nat, accessId: Id, token: string, refreshId: Id, family: Id)

  datatype Provider = Provider(id: Id, name: string, enabled: bool)
  datatype UserInfo = UserInfo(subject: string, email: string)

  /**
   Who asks for a revocation: a client by its id (`None` when it is not a UUID) and secret, a user's token,
   or nobody.
   */
  datatype Caller = Basic(client: Option<Id>, secret: string) | Bearer(jwt: string) | Nobody

  datatype Event =
    | WebLogin(now: Time, client: Id, providerName: string, provider: Option<Provider>, redirectUri: string,
               scope: Option<string>, state: string, faults: Faults)
    | WebCallback(now: Time, client: Id, providerName: string, provider: Option<Provider>, state: string,
                  cookie: string, info: Option<UserInfo>, userId: Id, codeId: Id, code: string, faults: Faults)
    | Exchange(now: Time, code: string, client: Id, secret: string, redirectUri: string, draws: Draws, faults: Faults)
    | Rotate(now: Time, token: string, clientId: Option<Id>, secret: string, draws: Draws, faults: Faults)
    | Revoke(now: Time, caller: Caller, token: string, hint: string, faults: Faults)
    | Logout(now: Time, token: string, faults: Faults)
    | Login(now: Time, user: Id, draws: Draws, faults: Faults)
    | ChangePassword(now: Time, user: Id, policyOk: bool, newHash: string, draws: Draws, faults: Faults)
    | AdminRevokeRefresh(now: Time, user: Id, faults: Faults)
    | AdminRevokeCode(now: Time, id: Id, faults: Faults)
    | AdminRevokeAccess(now: Time, id: Id, faults: Faults)
    | RevokeUserSessions(now: Time, user: Id, faults: Faults)
    | RevokeClientSessions(now: Time, client: Id, faults: Faults)
    | CleanupExpiredCodes(now: Time, faults: Faults)
    | CleanupExpiredTokens(now: Time, faults: Faults)
    | PurgeExpiredRefreshTokens(now: Time, faults: Faults)
    | DeleteProvider(now: Time, providerId: Id, faults: Faults)
    | ChangeClient(now: Time, id: Id, row: Client)
    | ChangeUser(now: Time, id: Id, account: User)
    | Request(now: Time, token: string, faults: Faults)

  datatype Error =
    | ClientNotFound | ClientInactive | InvalidClientSecret | InvalidRedirectURI | ProviderNotFound | ProviderDisabled
    | BadSession | CodeNotFound | CodeExpired | CodeUsed | CodeRevoked | CodeClientMismatch | CodeRedirectMismatch
    | InvalidGrant | TokenExpired | NotFound | Unauthorized | UserNotFound | PasswordChangeSatisfied | BadPassword
    | ServerError

  datatype Response =
    | Done
    | RedirectToProvider(cookie: string)
    | IssuedCode(code: string)
    | Tokens(access: string, scope: Option<string>, refresh: Option<string>)
    | Challenge
    | Admitted(user: Id)
    | Failed(error: Error)

  datatype Outcome = Outcome(world: World, response: Response)

  // ---------- Writes that add rows ----------

  function StoreCode(w: World, code: string, row: AuthorizationCode): (w': World) {
    w.(codes := w.codes[code := row],
       ledger := w.ledger.(
         ids := w.ledger.ids + {row.id},
         codes := w.ledger.codes[code := Grant(row.client, row.user, row.redirectUri, row.scope)]))
  }

  function RedeemCode(w: World, code: string, id: Id): (w': World) {
    w.(codes := UseCode(w.codes, id, w.now), ledger := w.ledger.(redeemed := w.ledger.redeemed + {code}))
  }

  function StoreAccess(w: World, hash: string, row: AccessToken, jwt: string, code: Option<string>): (w': World) {
    w.(access := w.access[hash := row],
       ledger := w.ledger.(
         ids := w.ledger.ids + {row.id},
         access := w.ledger.access[
           hash := AccessOrigin(row.id, jwt, row.client, row.user, row.scope, row.expiresAt, code)]))
  }

  function StoreRefresh(w: World, hash: string, row: RefreshToken, origin: RefreshOrigin): (w': World) {
    w.(refresh := w.refresh[hash := row],
       ledger := w.ledger.(
         ids := w.ledger.ids + {row.id, row.family},
         families := w.ledger.families[origin.family := origin.code],
         refresh := w.ledger.refresh[hash := origin]))
  }

  // ---------- The calls ----------

  /** JWT times are whole seconds. */
  function WholeSeconds(t: Time): (r: Time)
    ensures r <= t < r + SECOND && r % SECOND == 0
  {
    t / SECOND * SECOND
  }

  function AccessClaims(cfg: Config, user: Id, email: string, now: Time): (c: Claims) {
    Claims(user, email, WholeSeconds(now + cfg.accessLifetime), WholeSeconds(now))
  }

  function GenerateAccessToken(cfg: Config, user: Id, email: string, now: Time, nonce: nat): (jwt: string) {
    cfg.sign(AccessClaims(cfg, user, email, now), nonce)
  }

  predicate Contains(s: string, t: string) {
    exists i | 0 <= i <= |s| - |t| :: t <= s[i..]
  }

  /** Client authentication, shared by the two grants of the token endpoint. */
  function ClientError(cfg: Config, w: World, client: Id, secret: string, faults: Faults): (e: Option<Error>) {
    if GetClient in faults then Some(ServerError)
    else if client !in w.clients then Some(ClientNotFound)
    else if !w.clients[client].active then Some(ClientInactive)
    else if w.clients[client].secretHash != cfg.sha256(secret) then Some(InvalidClientSecret)
    else None
  }

  function CodeError(a: AuthorizationCode, now: Time, client: Id, redirectUri: string): (e: Option<Error>) {
    if a.revoked then Some(CodeRevoked)
    else if a.usedAt.Some? then Some(CodeUsed)
    else if now > a.expiresAt then Some(CodeExpired)
    else if a.client != client then Some(CodeClientMismatch)
    else if a.redirectUri != redirectUri then Some(CodeRedirectMismatch)
    else None
  }

  /** ExchangeCodeForToken. */
  function ExchangeCode(cfg: Config, w: World, code: string, client: Id, secret: string, redirectUri: string,
                        draws: Draws, faults: Faults): (o: Outcome)
  {
    var clientError := ClientError(cfg, w, client, secret, faults);
    if clientError.Some? then Outcome(w, Failed(clientError.value))
    else if GetAuthorizationCode in faults then Outcome(w, Failed(ServerError))
    else if code !in w.codes then Outcome(w, Failed(CodeNotFound))
    else
      var a := w.codes[code];
      var codeError := CodeError(a, w.now, client, redirectUri);
      if codeError.Some? then Outcome(w, Failed(codeError.value))
      else if MarkAuthorizationCodeUsed in faults then Outcome(w, Failed(ServerError))
      else IssueForCode(cfg, RedeemCode(w, code, a.id), code, a, draws, faults)
  }

  /** The rest of ExchangeCodeForToken, once the code is marked used: the access token. */
  function IssueForCode(cfg: Config, w: World, code: string, a: AuthorizationCode, draws: Draws,
                        faults: Faults): (o: Outcome)
  {
    if GetUserByID in faults || a.user !in w.users || SignAccessToken in faults then Outcome(w, Failed(ServerError))
    else
      var jwt := GenerateAccessToken(cfg, a.user, w.users[a.user].email, w.now, draws.nonce);
      if CreateAccessToken in faults || cfg.sha256(jwt) in w.access then Outcome(w, Failed(ServerError))
      else
        var w1 := StoreAccess(w, cfg.sha256(jwt), ExchangedAccess(cfg, w, a, draws), jwt, Some(code));
        IssueFirstRefresh(cfg, w1, code, a, jwt, draws, faults)
  }

  /** ... and the refresh token, when the client may have one and "offline_access" was granted. */
  function IssueFirstRefresh(cfg: Config, w: World, code: string, a: AuthorizationCode, jwt: string,
                             draws: Draws, faults: Faults): (o: Outcome)
  {
    var granted := if a.scope.Some? then a.scope.value else "";
    if a.client !in w.clients || !w.clients[a.client].allowRefreshTokens || !Contains(granted, "offline_access") then
      Outcome(w, Tokens(jwt, a.scope, None))
    else if GenerateToken in faults || CreateRefreshToken in faults || cfg.sha256(draws.token) in w.refresh then
      Outcome(w, Failed(ServerError))
    else
      var origin := RefreshOrigin(draws.refreshId, draws.family, 0, None, cfg.sha256(jwt), code);
      Outcome(StoreRefresh(w, cfg.sha256(draws.token), FirstRefresh(cfg, w, a, granted, draws), origin),
              Tokens(jwt, a.scope, Some(draws.token)))
  }

  function ExchangedAccess(cfg: Config, w: World, a: AuthorizationCode, draws: Draws): (row: AccessToken) {
    AccessToken(draws.accessId, Some(a.client), a.user, a.scope, w.now + cfg.accessLifetime, false)
  }

  function FirstRefresh(cfg: Config, w: World, a: AuthorizationCode, granted: string,
                        draws: Draws): (row: RefreshToken)
  {
    RefreshToken(draws.refreshId, draws.family, a.client, a.user, Some(draws.accessId), None, granted,
                 w.now + cfg.refreshLifetime, false, None, None, None)
  }

  /** nonEmptyStrPtr: an empty scope is stored as none. */
  function StrPtr(s: string): (p: Option<string>) {
    if s == "" then None else Some(s)
  }

  function RotatedAccess(cfg: Config, w: World, r: RefreshToken, draws: Draws): (row: AccessToken) {
    AccessToken(draws.accessId, Some(r.client), r.user, StrPtr(r.scope), w.now + cfg.accessLifetime, false)
  }

  function NextRefresh(cfg: Config, w: World, r: RefreshToken, draws: Draws): (row: RefreshToken) {
    RefreshToken(draws.refreshId, r.family, r.client, r.user, Some(draws.accessId), Some(r.id), r.scope,
                 w.now + cfg.refreshLifetime, false, None, None, None)
  }

  /** The code a refresh token derives from, for the ledger. */
  function CodeOf(l: Ledger, hash: string): (c: string) {
    if hash in l.refresh then l.refresh[hash].code else ""
  }

  function GenerationOf(l: Ledger, hash: string): (g: nat) {
    if hash in l.refresh then l.refresh[hash].generation else 0
  }

  /** Why a rotation is refused before its token is looked at. `clientId` is `None` when it is not a UUID. */
  function LookupError(cfg: Config, w: World, hash: string, clientId: Option<Id>, secret: string,
                       faults: Faults): (e: Option<Error>)
  {
    if clientId.None? then Some(InvalidGrant)
    else
      var clientError := ClientError(cfg, w, clientId.value, secret, faults);
      if clientError.Some? then clientError
      else if GetRefreshTokenByHash in faults then Some(ServerError)
      else if hash !in w.refresh then Some(InvalidGrant)
      else None
  }

  function TokenError(r: RefreshToken, now: Time, clientId: Option<Id>, faults: Faults): (e: Option<Error>) {
    if now > r.expiresAt then Some(TokenExpired)
    else if Some(r.client) != clientId then Some(InvalidGrant)
    else if MarkRefreshTokenUsed in faults then Some(ServerError)
    else None
  }

  /** RotateRefreshToken. A revoked token is a replay: its whole family is revoked. */
  function RotateToken(cfg: Config, w: World, token: string, clientId: Option<Id>, secret: string,
                       draws: Draws, faults: Faults): (o: Outcome)
  {
    var hash := cfg.sha256(token);
    var lookupError := LookupError(cfg, w, hash, clientId, secret, faults);
    if lookupError.Some? then Outcome(w, Failed(lookupError.value))
    else
      var r := w.refresh[hash];
      if r.revoked then
        if RevokeRefreshTokenFamily in faults then Outcome(w, Failed(InvalidGrant))
        else Outcome(w.(refresh := RevokeFamily(w.refresh, r.family, "replay_detected", w.now)), Failed(InvalidGrant))
      else
        var tokenError := TokenError(r, w.now, clientId, faults);
        if tokenError.Some? then Outcome(w, Failed(tokenError.value))
        else ReplaceToken(cfg, w, hash, r, draws, faults)
  }

  /** The presented token is marked used, and a successor issued. */
  function ReplaceToken(cfg: Config, w: World, hash: string, r: RefreshToken, draws: Draws,
                        faults: Faults): (o: Outcome)
  {
    IssueSuccessor(cfg, w.(refresh := UseRefresh(w.refresh, r.id, w.now)), hash, r, draws, faults)
  }

  /** The rest of RotateRefreshToken, once the presented token `r` is marked used. */
  function IssueSuccessor(cfg: Config, w: World, hash: string, r: RefreshToken, draws: Draws,
                          faults: Faults): (o: Outcome)
  {
    if GetUserByID in faults || r.user !in w.users || SignAccessToken in faults then Outcome(w, Failed(ServerError))
    else
      var jwt := GenerateAccessToken(cfg, r.user, w.users[r.user].email, w.now, draws.nonce);
      if CreateAccessToken in faults || cfg.sha256(jwt) in w.access then Outcome(w, Failed(ServerError))
      else
        var w1 := StoreAccess(w, cfg.sha256(jwt), RotatedAccess(cfg, w, r, draws), jwt, Some(CodeOf(w.ledger, hash)));
        IssueNextRefresh(cfg, w1, hash, r, jwt, draws, faults)
  }

  /** ... and, after its new access token, the next refresh token of the family. */
  function IssueNextRefresh(cfg: Config, w: World, hash: string, r: RefreshToken, jwt: string,
                            draws: Draws, faults: Faults): (o: Outcome)
  {
    if GenerateToken in faults || CreateRefreshToken in faults || cfg.sha256(draws.token) in w.refresh then
      Outcome(w, Failed(ServerError))
    else
      var origin := RefreshOrigin(draws.refreshId, r.family, GenerationOf(w.ledger, hash) + 1, Some(hash),
                                  cfg.sha256(jwt), CodeOf(w.ledger, hash));
      Outcome(StoreRefresh(w, cfg.sha256(draws.token), NextRefresh(cfg, w, r, draws), origin),
              Tokens(jwt, StrPtr(r.scope), Some(draws.token)))
  }

  /** RevokeAnyToken: RFC 7009. */
  function RevokeAnyToken(cfg: Config, w: World, token: string, hint: string, faults: Faults): (o: Outcome) {
    var hash := cfg.sha256(token);
    if hint != "access_token" && GetRefreshTokenByHash in faults then Outcome(w, Failed(ServerError))
    else if hint != "access_token" && hash in w.refresh then RevokeRefreshAndLinked(w, w.refresh[hash], faults)
    else if GetAccessToken in faults then Outcome(w, Failed(ServerError))
    else if hash !in w.access then Outcome(w, Done)
    else RevokeAccessRecord(w, w.access[hash], faults)
  }

  function RevokeAccessRecord(w: World, a: AccessToken, faults: Faults): (o: Outcome) {
    if a.revoked then Outcome(w, Done)
    else if RevokeAccessToken in faults then Outcome(w, Failed(ServerError))
    else Outcome(w.(access := RevokeAccess(w.access, a.id)), Done)
  }

  /**
   Revokes a live refresh token and then, if it is still stored, the access token linked
   to it. A failure of that last write is ignored by the code; a failed lookup is not.
   */
  function RevokeRefreshAndLinked(w: World, r: RefreshToken, faults: Faults): (o: Outcome) {
    if r.revoked then Outcome(w, Done)
    else if RevokeRefreshToken in faults then Outcome(w, Failed(ServerError))
    else
      var w1 := w.(refresh := RevokeRefresh(w.refresh, r.id, "client_revoked", w.now));
      if r.access.None? then Outcome(w1, Done)
      else if GetAccessTokenByID in faults then Outcome(w1, Failed(ServerError))
      else if RevokeAccessToken in faults then Outcome(w1, Done)
      else Outcome(w1.(access := RevokeAccess(w1.access, r.access.value)), Done)
  }

  /** ValidateAccessToken followed by IsTokenRevoked, as the auth middleware combines them. */
  function Admit(cfg: Config, w: World, token: string, faults: Faults): (r: Response) {
    var claims := cfg.verify(token);
    if claims.None? || !(w.now < claims.value.expiresAt) || w.now < claims.value.notBefore then Failed(Unauthorized)
    else if GetAccessToken in faults then Failed(ServerError)
    else if cfg.sha256(token) in w.access && w.access[cfg.sha256(token)].revoked then Failed(Unauthorized)
    else Admitted(claims.value.user)
  }

  /** The caller of the revocation endpoint is known: a client by its secret, or a user by a token that is admitted. */
  predicate Authenticates(cfg: Config, w: World, caller: Caller, faults: Faults) {
    match caller
    case Basic(client, secret) => client.Some? && ClientError(cfg, w, client.value, secret, faults).None?
    case Bearer(jwt) => jwt != "" && Admit(cfg, w, jwt, faults).Admitted?
    case Nobody => false
  }

  /** The revocation endpoint. Whoever the caller is, it goes on alike, and it hides failures of the service. */
  function RevokeRequest(cfg: Config, w: World, caller: Caller, token: string, hint: string,
                         faults: Faults): (o: Outcome)
  {
    if !Authenticates(cfg, w, caller, faults) then Outcome(w, Failed(Unauthorized))
    else if token == "" then Outcome(w, Done)
    else Outcome(RevokeAnyToken(cfg, w, token, hint, faults).world, Done)
  }

  /** Logout, behind the auth middleware. */
  function LogoutUser(cfg: Config, w: World, token: string, faults: Faults): (o: Outcome) {
    var admitted := Admit(cfg, w, token, faults);
    if !admitted.Admitted? then Outcome(w, admitted)
    else Outcome(LogoutRefresh(LogoutAccess(w, cfg.sha256(token), faults), admitted.user, faults), Done)
  }

  /** Logout revokes the presented access token, if it is stored ... */
  function LogoutAccess(w: World, hash: string, faults: Faults): (w': World) {
    if hash in w.access && RevokeAccessToken !in faults
    then w.(access := RevokeAccess(w.access, w.access[hash].id)) else w
  }

  /** ... and the refresh tokens of its user. Failures of either are ignored. */
  function LogoutRefresh(w: World, user: Id, faults: Faults): (w': World) {
    if RevokeRefreshTokensByUser in faults then w
    else w.(refresh := RevokeRefreshOfUser(w.refresh, user, "logout", w.now))
  }

  /** StoreDirectLoginToken, after GenerateAccessToken. */
  function StoreLoginToken(cfg: Config, w: World, user: Id, jwt: string, draws: Draws, faults: Faults): (o: Outcome) {
    if CreateAccessToken in faults || cfg.sha256(jwt) in w.access then Outcome(w, Failed(ServerError))
    else
      Outcome(StoreAccess(w, cfg.sha256(jwt), LoginAccess(cfg, w, user, draws), jwt, None), Tokens(jwt, None, None))
  }

  function LoginAccess(cfg: Config, w: World, user: Id, draws: Draws): (row: AccessToken) {
    AccessToken(draws.accessId, None, user, None, w.now + cfg.accessLifetime, false)
  }

  /** The login handler once the credentials of `user` have been verified. */
  function LoginUser(cfg: Config, w: World, user: Id, draws: Draws, faults: Faults): (o: Outcome) {
    if user !in w.users then Outcome(w, Failed(Unauthorized))
    else if w.users[user].forcePasswordChange then
      Outcome(w, if SignChallengeToken in faults then Failed(ServerError) else Challenge)
    else if SignAccessToken in faults then Outcome(w, Failed(ServerError))
    else
      var jwt := GenerateAccessToken(cfg, user, w.users[user].email, w.now, draws.nonce);
      if RevokeAccessTokensByUser in faults then Outcome(w, Failed(ServerError))
      else StoreLoginToken(cfg, w.(access := RevokeAccessOfUser(w.access, user)), user, jwt, draws, faults)
  }

  function PasswordSet(users: map<Id, User>, user: Id, newHash: string): (users': map<Id, User>)
    requires user in users
    ensures user in users'
  {
    users[user := users[user].(passwordHash := Some(newHash))]
  }

  function FlagCleared(users: map<Id, User>, user: Id): (users': map<Id, User>)
    requires user in users
  {
    users[user := users[user].(forcePasswordChange := false)]
  }

  /** The change-password handler once the challenge token of `user` has been validated. */
  function ChangeUserPassword(cfg: Config, w: World, user: Id, policyOk: bool, newHash: string,
                              draws: Draws, faults: Faults): (o: Outcome)
  {
    if GetUserByID in faults then Outcome(w, Failed(ServerError))
    else if user !in w.users then Outcome(w, Failed(UserNotFound))
    else if !w.users[user].forcePasswordChange then Outcome(w, Failed(PasswordChangeSatisfied))
    else if !policyOk then Outcome(w, Failed(BadPassword))
    else if UpdatePasswordHash in faults then Outcome(w, Failed(ServerError))
    else
      var w1 := w.(users := PasswordSet(w.users, user, newHash));
      if SetForcePasswordChange in faults then Outcome(w1, Failed(ServerError))
      else
        var w2 := w1.(users := FlagCleared(w1.users, user));
        EndSessions(cfg, w2, user, w.users[user].email, draws, faults)
  }

  /** ... whose refresh tokens are revoked (a failure is ignored) before a new access token is issued. */
  function EndSessions(cfg: Config, w: World, user: Id, email: string, draws: Draws, faults: Faults): (o: Outcome) {
    var w1 := if RevokeRefreshTokensByUser in faults then w
              else w.(refresh := RevokeRefreshOfUser(w.refresh, user, "password_change", w.now));
    if SignAccessToken in faults then Outcome(w1, Failed(ServerError))
    else StoreLoginToken(cfg, w1, user, GenerateAccessToken(cfg, user, email, w.now, draws.nonce), draws, faults)
  }

  /** InitiateAuthorization and the login handler: check the redirect URI, then hand out a signed cookie. */
  function StartWebLogin(cfg: Config, w: World, client: Id, providerName: string, provider: Option<Provider>,
                         redirectUri: string, scope: Option<string>, state: string, faults: Faults): (o: Outcome)
  {
    if redirectUri == "" then Outcome(w, Failed(InvalidRedirectURI))
    else if GenerateToken in faults || GetClient in faults then Outcome(w, Failed(ServerError))
    else if client !in w.clients then Outcome(w, Failed(ClientNotFound))
    else if !w.clients[client].active then Outcome(w, Failed(ClientInactive))
    else if redirectUri !in w.clients[client].redirectUris then Outcome(w, Failed(InvalidRedirectURI))
    else if GetProvider in faults then Outcome(w, Failed(ServerError))
    else if provider.None? then Outcome(w, Failed(ProviderNotFound))
    else if !provider.value.enabled then Outcome(w, Failed(ProviderDisabled))
    else
      var session := S.Session(state, client, providerName, redirectUri, scope);
      var l := w.ledger.(
        approved := w.ledger.approved + {(client, redirectUri)},
        signed := w.ledger.signed[S.Payload(cfg.cookies, session) := session]);
      Outcome(w.(ledger := l), RedirectToProvider(S.EncodeSession(cfg.cookies, session)))
  }

  /** SQL equality of both columns: a missing value, on either side, equals nothing. */
  predicate SameIdentity(u: User, provider: Option<string>, subject: Option<string>) {
    provider.Some? && subject.Some? && u.provider == provider && u.subject == subject
  }

  function AccountsOf(users: map<Id, User>, provider: Option<string>, subject: Option<string>): (s: set<Id>) {
    set u | u in users && SameIdentity(users[u], provider, subject)
  }

  /** upsertUser: the id of the account for this provider identity, and the users table after. */
  function UpsertUser(w: World, providerName: string, info: UserInfo, newId: Id, faults: Faults):
    (r: Option<(Id, map<Id, User>)>)
  {
    var known := AccountsOf(w.users, StrPtr(providerName), StrPtr(info.subject));
    if GetUserByProviderID in faults then None
    else if known != {} then
      if UpdateLastLogin in faults then None else Some((Least(known), w.users))
    else if CreateUser in faults || newId in w.users then None
    else if exists u :: u in w.users && w.users[u].email == info.email then None
    else Some((newId, w.users[newId := User(info.email, StrPtr(providerName), StrPtr(info.subject), None, false)]))
  }

  /**
   A second login with the same identity finds the account of the first and leaves the table alone,
   unless the provider's name or its subject is empty: that is stored as NULL and never found again.
   */
  lemma UpsertFindsAgain(w: World, providerName: string, info: UserInfo, newId: Id, nextId: Id, faults: Faults)
    requires UpsertUser(w, providerName, info, newId, faults).Some?
    ensures var r := UpsertUser(w, providerName, info, newId, faults).value;
            UpsertUser(w.(users := r.1), providerName, info, nextId, {}) == Some(r)
            <==> providerName != "" && info.subject != ""
  {
    var r := UpsertUser(w, providerName, info, newId, faults).value;
    var p, s := StrPtr(providerName), StrPtr(info.subject);
    var known, found := AccountsOf(w.users, p, s), AccountsOf(r.1, p, s);
    var next := UpsertUser(w.(users := r.1), providerName, info, nextId, {});
    if known == {} {
      assert newId in r.1 && r.1[newId].email == info.email;
      if p.Some? && s.Some? {
        assert found == {newId};
        assert next == Some((Least(found), r.1));
      } else {
        assert found == {};
        assert next.None?;
      }
    } else {
      assert found == known;
    }
  }

  predicate IsLeast(m: Id, s: set<Id>) {
    m in s && forall x :: x in s ==> m <= x
  }

  /** The schema makes (provider, provider_id) unique, so at most one id is ever found; this picks it. */
  function Least(s: set<Id>): (m: Id)
    requires s != {}
    ensures m in s
  {
    LeastExists(s);
    var m :| IsLeast(m, s);
    m
  }

  lemma LeastExists(s: set<Id>)
    requires s != {}
    ensures exists m :: IsLeast(m, s)
  {
    var y :| y in s;
    LeastUpTo(s, y);
  }

  lemma {:induction false} LeastUpTo(s: set<Id>, y: Id)
    requires y in s
    ensures exists m :: IsLeast(m, s)
    decreases y
  {
    if IsLeast(y, s) {
    } else {
      var z :| z in s && z < y;
      LeastUpTo(s, z);
    }
  }

  const CODE_LIFETIME := 5 * MINUTE

  /** The callback handler: the cookie must verify and match the request. */
  function FinishWebLogin(cfg: Config, w: World, client: Id, providerName: string, provider: Option<Provider>,
                          state: string, cookie: string, info: Option<UserInfo>, userId: Id, codeId: Id, code: string,
                          faults: Faults): (o: Outcome)
  {
    var decoded := S.DecodeSession(cfg.cookies, cookie);
    if decoded.Rejected? then Outcome(w, Failed(BadSession))
    else
      var s := decoded.session;
      if state != s.state || s.client != client || s.provider != providerName then Outcome(w, Failed(BadSession))
      else HandleProviderCallback(w, client, provider, s.redirectUri, s.scope, info, userId, codeId, code, faults)
  }

  /** HandleProviderCallback. `info` is what the provider answered about the user, if it did. */
  function HandleProviderCallback(w: World, client: Id, provider: Option<Provider>, redirectUri: string,
                                  scope: Option<string>, info: Option<UserInfo>, userId: Id, codeId: Id, code: string,
                                  faults: Faults): (o: Outcome)
  {
    if GetClient in faults then Outcome(w, Failed(ServerError))
    else if client !in w.clients then Outcome(w, Failed(ClientNotFound))
    else if !w.clients[client].active then Outcome(w, Failed(ClientInactive))
    else if GetProvider in faults then Outcome(w, Failed(ServerError))
    else if provider.None? then Outcome(w, Failed(ProviderNotFound))
    else if !provider.value.enabled then Outcome(w, Failed(ProviderDisabled))
    else if info.None? then Outcome(w, Failed(ServerError))
    else
      var upserted := UpsertUser(w, provider.value.name, info.value, userId, faults);
      if upserted.None? then Outcome(w, Failed(ServerError))
      else IssueCodeTo(w, client, provider.value.id, redirectUri, scope, upserted.value.0, upserted.value.1, codeId,
                       code, faults)
  }

  /** ... the new code, for the user that was found or created. */
  function IssueCodeTo(w: World, client: Id, provider: Id, redirectUri: string, scope: Option<string>, user: Id,
                       users: map<Id, User>, codeId: Id, code: string, faults: Faults): (o: Outcome)
  {
    var w1 := w.(users := users);
    if GenerateToken in faults || CreateAuthorizationCode in faults || code in w.codes then
      Outcome(w1, Failed(ServerError))
    else
      var row := AuthorizationCode(codeId, client, user, provider, redirectUri, scope, w.now + CODE_LIFETIME, None,
                                   false);
      Outcome(StoreCode(w1, code, row), IssuedCode(code))
  }

  /** A call whose only writing statement either fails or turns `w` into `w'`. */
  function Sole(w: World, w': World, faults: Faults): (o: Outcome) {
    if SoleStatement in faults then Outcome(w, Failed(ServerError)) else Outcome(w', Done)
  }

  /** One event. The clock reading is taken first; the calls then see it as `now`. */
  function Step(cfg: Config, before: World, e: Event): (o: Outcome) {
    var w := before.(now := e.now);
    match e
    case WebLogin(_, client, providerName, provider, redirectUri, scope, state, faults) =>
      StartWebLogin(cfg, w, client, providerName, provider, redirectUri, scope, state, faults)
    case WebCallback(_, client, providerName, provider, state, cookie, info, userId, codeId, code, faults) =>
      FinishWebLogin(cfg, w, client, providerName, provider, state, cookie, info, userId, codeId, code, faults)
    case Exchange(_, code, client, secret, redirectUri, draws, faults) =>
      ExchangeCode(cfg, w, code, client, secret, redirectUri, draws, faults)
    case Rotate(_, token, clientId, secret, draws, faults) =>
      RotateToken(cfg, w, token, clientId, secret, draws, faults)
    case Revoke(_, caller, token, hint, faults) => RevokeRequest(cfg, w, caller, token, hint, faults)
    case Logout(_, token, faults) => LogoutUser(cfg, w, token, faults)
    case Login(_, user, draws, faults) => LoginUser(cfg, w, user, draws, faults)
    case ChangePassword(_, user, policyOk, newHash, draws, faults) =>
      ChangeUserPassword(cfg, w, user, policyOk, newHash, draws, faults)
    case AdminRevokeRefresh(_, user, faults) =>
      if GetUserByID in faults then Outcome(w, Failed(ServerError))
      else if user !in w.users then Outcome(w, Failed(UserNotFound))
      else Sole(w, w.(refresh := RevokeRefreshOfUser(w.refresh, user, "admin_revoked", w.now)), faults)
    case AdminRevokeCode(_, id, faults) =>
      if GetAuthorizationCode in faults then Outcome(w, Failed(ServerError))
      else if !CodeStored(w.codes, id) then Outcome(w, Failed(NotFound))
      else Sole(w, w.(codes := RevokeCode(w.codes, id)), faults)
    case AdminRevokeAccess(_, id, faults) =>
      if GetAccessTokenByID in faults then Outcome(w, Failed(ServerError))
      else if !AccessStored(w.access, id) then Outcome(w, Failed(NotFound))
      else Sole(w, w.(access := RevokeAccess(w.access, id)), faults)
    case RevokeUserSessions(_, user, faults) => Sole(w, w.(access := RevokeAccessOfUser(w.access, user)), faults)
    case RevokeClientSessions(_, client, faults) =>
      Sole(w, w.(access := RevokeAccessOfClient(w.access, client)), faults)
    case CleanupExpiredCodes(_, faults) => Sole(w, w.(codes := DropExpiredCodes(w.codes, w.now)), faults)
    case CleanupExpiredTokens(_, faults) => Sole(w, CleanAccess(w), faults)
    case PurgeExpiredRefreshTokens(_, faults) => Sole(w, w.(refresh := DropExpiredRefresh(w.refresh, w.now)), faults)
    case DeleteProvider(_, providerId, faults) => Sole(w, w.(codes := DropCodesOf(w.codes, providerId)), faults)
    case ChangeClient(_, id, row) => Outcome(w.(clients := w.clients[id := row]), Done)
    case ChangeUser(_, id, account) => Outcome(w.(users := w.users[id := account]), Done)
    case Request(_, token, faults) => Outcome(w, Admit(cfg, w, token, faults))
  }

  function CleanAccess(w: World): (w': World) {
    var kept := DropExpiredAccess(w.access, w.now);
    w.(access := kept, refresh := ClearAccessLinks(w.refresh, kept))
  }
}
