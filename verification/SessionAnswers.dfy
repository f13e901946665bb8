/**
 What the other endpoints answer: requests that carry an access token, logout, direct login, the
 forced password change, and the two halves of the web login.
 */
module SessionAnswers {
  import opened Prelude
  import opened Tables
  import opened Lifecycle
  import opened Invariant
  import opened Preservation
  import opened Runs
  import opened Revocation
  import opened TokenAnswers
  import S = SessionCookie

  // ---------- Requests ----------

  /** A request is let in, as the user the token names, exactly when its token may be presented. */
  lemma RequestAdmittedIff(cfg: Config, w: World, e: Event, user: Id)
    requires e.Request?
    ensures Step(cfg, w, e).response == Admitted(user) <==>
              && Presentable(cfg, w, e.token, e.now) && cfg.verify(e.token).value.user == user
              && GetAccessToken !in e.faults
    ensures Step(cfg, w, e).world == w.(now := e.now)
  {}

  /**
   At every point of every run, the JWT of a stored access token is let in as the token's own user from
   the second it was issued until the second it expires, unless the token is revoked or the lookup fails.
   */
  lemma StoredTokenAdmittedIff(cfg: Config, run: History, i: nat, h: string, now: Time, faults: Faults, user: Id)
    requires Run(cfg, run) && i < |run.worlds| && h in run.worlds[i].access
    ensures h in run.worlds[i].ledger.access && cfg.sha256(run.worlds[i].ledger.access[h].jwt) == h
    ensures var w := run.worlds[i];
            var row := w.access[h];
            Admit(cfg, w.(now := now), w.ledger.access[h].jwt, faults) == Admitted(user) <==>
              && user == row.user && !row.revoked && GetAccessToken !in faults
              && WholeSeconds(row.expiresAt - cfg.accessLifetime) <= now < WholeSeconds(row.expiresAt)
  {
    RunInv(cfg, run, i);
    assert AccessRowOk(run.worlds[i].access, run.worlds[i].ledger, h);
    assert AccessOriginOk(cfg, run.worlds[i].ledger, h);
  }

  // ---------- Logout ----------

  /** Logout is answered `Done` exactly for a token that may be presented; any other changes nothing. */
  lemma LogoutAnswersIff(cfg: Config, w: World, e: Event)
    requires e.Logout?
    ensures var o := Step(cfg, w, e);
            if Presentable(cfg, w, e.token, e.now) && GetAccessToken !in e.faults then o.response == Done
            else o.world == w.(now := e.now) && o.response.Failed?
  {}

  /** What a logout that nothing disturbs leaves: the presented token and its user's refresh tokens revoked. */
  lemma LogoutEffect(cfg: Config, w: World, e: Event)
    requires Inv(cfg, w) && e.Logout? && w.now <= e.now
    requires Step(cfg, w, e).response == Done && e.faults !! {RevokeAccessToken, RevokeRefreshTokensByUser}
    ensures cfg.verify(e.token).Some?
    ensures var v, h, user := Step(cfg, w, e).world, cfg.sha256(e.token), cfg.verify(e.token).value.user;
            && v.access == (if h in w.access then w.access[h := w.access[h].(revoked := true)] else w.access)
            && v.refresh.Keys == w.refresh.Keys
            && (forall k :: k in w.refresh ==>
                  v.refresh[k] == if w.refresh[k].user != user || w.refresh[k].revoked then w.refresh[k]
                                  else w.refresh[k].(revoked := true, revokedAt := Some(e.now),
                                                     revokeReason := Some("logout")))
            && v.codes == w.codes && v.users == w.users && v.clients == w.clients
  {
    var u, h := w.(now := e.now), cfg.sha256(e.token);
    ClockInv(cfg, w, e.now);
    if h in w.access {
      assert AccessRowOk(u.access, u.ledger, h);
      OnlyThisAccess(cfg, u, h);
    }
  }

  /** The token that logged out is refused from then on, exactly if it is one the server keeps a row of. */
  lemma LoggedOutIsRefusedIff(cfg: Config, w: World, e: Event)
    requires Inv(cfg, w) && e.Logout? && w.now <= e.now
    requires Step(cfg, w, e).response == Done && e.faults !! {RevokeAccessToken, RevokeRefreshTokensByUser}
    ensures !Admit(cfg, Step(cfg, w, e).world, e.token, {}).Admitted? <==> cfg.sha256(e.token) in w.access
  {
    LogoutEffect(cfg, w, e);
  }

  // ---------- Direct login ----------

  lemma LoginSucceedsIff(cfg: Config, w: World, e: Event)
    requires Inv(cfg, w) && e.Login? && Admissible(cfg, w, e)
    ensures var r := Step(cfg, w, e).response;
            && (r == Failed(Unauthorized) <==> e.user !in w.users)
            && (r == Challenge <==> e.user in w.users && w.users[e.user].forcePasswordChange
                                    && SignChallengeToken !in e.faults)
            && (r.Tokens? <==> e.user in w.users && !w.users[e.user].forcePasswordChange
                               && e.faults !! {SignAccessToken, RevokeAccessTokensByUser, CreateAccessToken})
    ensures var o := Step(cfg, w, e);
            o.response in {Failed(Unauthorized), Challenge} ==> o.world == w.(now := e.now)
  {
    if e.user in w.users {
      var jwt := GenerateAccessToken(cfg, e.user, w.users[e.user].email, e.now, e.draws.nonce);
      StoredIsRecorded(cfg, w, cfg.sha256(jwt));
    }
  }

  /** One new token of `user`; every other row is as it was, but those of `user` are revoked. */
  lemma LoginEffect(cfg: Config, w: World, e: Event)
    requires Lawful(cfg) && Inv(cfg, w) && e.Login? && Admissible(cfg, w, e)
    requires Step(cfg, w, e).response.Tokens?
    ensures e.user in w.users
    ensures var o := Step(cfg, w, e);
            var jwt, v := o.response.access, o.world;
            var h := cfg.sha256(jwt);
            && SignedNow(cfg, jwt, e.user, w.users[e.user].email, e.now)
            && o.response == Tokens(jwt, None, None)
            && h !in w.access && v.access.Keys == w.access.Keys + {h}
            && v.access[h] == AccessToken(e.draws.accessId, None, e.user, None, e.now + cfg.accessLifetime, false)
            && (forall k :: k in w.access ==>
                  v.access[k] == if w.access[k].user == e.user then w.access[k].(revoked := true) else w.access[k])
            && v.refresh == w.refresh && v.codes == w.codes && v.users == w.users && v.clients == w.clients
  {
    LoginSucceedsIff(cfg, w, e);
    JwtClaims(cfg, e.user, w.users[e.user].email, e.now, e.draws.nonce);
    StoredIsRecorded(cfg, w, cfg.sha256(Step(cfg, w, e).response.access));
  }

  // ---------- Forced password change ----------

  lemma PasswordChangeSucceedsIff(cfg: Config, w: World, e: Event)
    requires Inv(cfg, w) && e.ChangePassword? && Admissible(cfg, w, e)
    ensures Step(cfg, w, e).response.Tokens? <==>
              && e.user in w.users && w.users[e.user].forcePasswordChange && e.policyOk
              && e.faults !! {GetUserByID, UpdatePasswordHash, SetForcePasswordChange, SignAccessToken,
                              CreateAccessToken}
  {
    if e.user in w.users {
      var jwt := GenerateAccessToken(cfg, e.user, w.users[e.user].email, e.now, e.draws.nonce);
      StoredIsRecorded(cfg, w, cfg.sha256(jwt));
    }
  }

  lemma PasswordChangeRefusals(cfg: Config, w: World, e: Event)
    requires e.ChangePassword? && GetUserByID !in e.faults
    ensures var r, known := Step(cfg, w, e).response, e.user in w.users;
            && (r == Failed(UserNotFound) <==> !known)
            && (r == Failed(PasswordChangeSatisfied) <==> known && !w.users[e.user].forcePasswordChange)
            && (r == Failed(BadPassword) <==> known && w.users[e.user].forcePasswordChange && !e.policyOk)
    ensures var o := Step(cfg, w, e);
            o.response.Failed? && o.response.error != ServerError ==> o.world == w.(now := e.now)
  {}

  /** The live refresh tokens of `user` are revoked, unless that statement failed. */
  predicate SessionsEnded(t: RefreshTokens, user: Id, now: Time, failed: bool, t': RefreshTokens) {
    && t'.Keys == t.Keys
    && forall k :: k in t ==>
         t'[k] == if t[k].user != user || t[k].revoked || failed then t[k]
                  else t[k].(revoked := true, revokedAt := Some(now), revokeReason := Some("password_change"))
  }

  lemma EndSessionsEffect(cfg: Config, w: World, user: Id, email: string, draws: Draws, faults: Faults)
    requires Lawful(cfg) && EndSessions(cfg, w, user, email, draws, faults).response.Tokens?
    ensures var o := EndSessions(cfg, w, user, email, draws, faults);
            var jwt, v := o.response.access, o.world;
            && SignedNow(cfg, jwt, user, email, w.now)
            && o.response == Tokens(jwt, None, None)
            && v.access == w.access[cfg.sha256(jwt) := AccessToken(draws.accessId, None, user, None,
                                                                   w.now + cfg.accessLifetime, false)]
            && v.users == w.users && v.codes == w.codes && v.clients == w.clients
            && SessionsEnded(w.refresh, user, w.now, RevokeRefreshTokensByUser in faults, v.refresh)
  {
    JwtClaims(cfg, user, email, w.now, draws.nonce);
  }

  /** The new hash is stored and the flag cleared, for this user alone; refresh tokens end, one access token begins. */
  lemma PasswordChangeEffect(cfg: Config, w: World, e: Event)
    requires Lawful(cfg) && Inv(cfg, w) && e.ChangePassword? && Admissible(cfg, w, e)
    requires Step(cfg, w, e).response.Tokens?
    ensures e.user in w.users
    ensures var o := Step(cfg, w, e);
            var jwt, v := o.response.access, o.world;
            && v.users == w.users[e.user := w.users[e.user].(passwordHash := Some(e.newHash),
                                                             forcePasswordChange := false)]
            && SignedNow(cfg, jwt, e.user, w.users[e.user].email, e.now)
            && o.response == Tokens(jwt, None, None)
            && v.access == w.access[cfg.sha256(jwt) := AccessToken(e.draws.accessId, None, e.user, None,
                                                                   e.now + cfg.accessLifetime, false)]
            && v.codes == w.codes && v.clients == w.clients
            && SessionsEnded(w.refresh, e.user, e.now, RevokeRefreshTokensByUser in e.faults, v.refresh)
  {
    PasswordChangeSucceedsIff(cfg, w, e);
    var users := FlagCleared(PasswordSet(w.users, e.user, e.newHash), e.user);
    var changed := w.(now := e.now, users := users);
    assert Step(cfg, w, e) == EndSessions(cfg, changed, e.user, w.users[e.user].email, e.draws, e.faults);
    EndSessionsEffect(cfg, changed, e.user, w.users[e.user].email, e.draws, e.faults);
  }

  lemma EndSessionsKeepsUsers(cfg: Config, w: World, user: Id, email: string, draws: Draws, faults: Faults)
    ensures EndSessions(cfg, w, user, email, draws, faults).world.users == w.users
  {}

  /** After a password change a login is no longer challenged, unless the flag could not be cleared. */
  lemma ChallengedNoMoreIff(cfg: Config, w: World, e: Event, draws: Draws)
    requires e.ChangePassword?
    requires e.user in w.users && w.users[e.user].forcePasswordChange && e.policyOk
    requires e.faults !! {GetUserByID, UpdatePasswordHash}
    ensures var v := Step(cfg, w, e).world;
            && e.user in v.users && v.users[e.user].passwordHash == Some(e.newHash)
            && (LoginUser(cfg, v, e.user, draws, {}).response != Challenge <==> SetForcePasswordChange !in e.faults)
  {
    var u := w.(now := e.now, users := PasswordSet(w.users, e.user, e.newHash));
    EndSessionsKeepsUsers(cfg, u.(users := FlagCleared(u.users, e.user)), e.user, w.users[e.user].email, e.draws,
                          e.faults);
  }

  // ---------- Web login ----------

  /** Where a login may begin: an active client, one of its redirect URIs, an enabled provider. */
  predicate LoginAllowed(w: World, e: Event)
    requires e.WebLogin?
  {
    && e.redirectUri != ""
    && e.client in w.clients && w.clients[e.client].active && e.redirectUri in w.clients[e.client].redirectUris
    && e.provider.Some? && e.provider.value.enabled
  }

  lemma WebLoginAnswersIff(cfg: Config, w: World, e: Event)
    requires e.WebLogin?
    ensures var o := Step(cfg, w, e);
            if LoginAllowed(w, e) && e.faults !! {GenerateToken, GetClient, GetProvider} then
              o.response == RedirectToProvider(S.EncodeSession(cfg.cookies,
                S.Session(e.state, e.client, e.providerName, e.redirectUri, e.scope)))
            else o == Outcome(w.(now := e.now), o.response) && o.response.Failed?
  {}

  /** An account has this identity. */
  ghost predicate Registered(users: map<Id, User>, name: Option<string>, subject: Option<string>) {
    exists u :: u in users && SameIdentity(users[u], name, subject)
  }

  /** The account a code is issued to: the one that has this identity, or else a new one that gets it. */
  ghost predicate AccountFor(users: map<Id, User>, e: Event, users': map<Id, User>, user: Id)
    requires e.WebCallback? && e.provider.Some? && e.info.Some?
  {
    var name, subject := StrPtr(e.provider.value.name), StrPtr(e.info.value.subject);
    if Registered(users, name, subject) then
      users' == users && user in users && SameIdentity(users[user], name, subject)
    else
      && user == e.userId && e.userId !in users
      && users' == users[e.userId := User(e.info.value.email, name, subject, None, false)]
  }

  /** There is such an account, or room for one: its id and its address are not taken. */
  ghost predicate AccountAvailable(users: map<Id, User>, e: Event)
    requires e.WebCallback? && e.provider.Some? && e.info.Some?
  {
    if Registered(users, StrPtr(e.provider.value.name), StrPtr(e.info.value.subject)) then UpdateLastLogin !in e.faults
    else
      && CreateUser !in e.faults && e.userId !in users
      && (forall u :: u in users ==> users[u].email != e.info.value.email)
  }

  /** The client is still active, the provider enabled, and it told who the user is. */
  ghost predicate CodeAllowed(w: World, e: Event)
    requires e.WebCallback?
  {
    && e.client in w.clients && w.clients[e.client].active
    && e.provider.Some? && e.provider.value.enabled
    && e.info.Some? && AccountAvailable(w.users, e)
  }

  ghost predicate CallbackAllowed(cfg: Config, w: World, e: Event, s: S.Session)
    requires e.WebCallback?
  {
    && S.DecodeSession(cfg.cookies, e.cookie) == S.Accepted(s)
    && s.state == e.state && s.client == e.client && s.provider == e.providerName
    && CodeAllowed(w, e)
  }

  predicate CallbackUndisturbed(e: Event)
    requires e.WebCallback?
  {
    e.faults !! {GetClient, GetProvider, GetUserByProviderID, GenerateToken, CreateAuthorizationCode}
  }

  /** The code that is issued lives five minutes and carries the redirect URI and scope of the session. */
  ghost predicate CodeIssued(w: World, e: Event, s: S.Session, v: World)
    requires e.WebCallback? && e.provider.Some? && e.info.Some?
  {
    e.code in v.codes &&
    var a := v.codes[e.code];
    && AccountFor(w.users, e, v.users, a.user)
    && v.codes == w.codes[e.code := AuthorizationCode(e.codeId, e.client, a.user, e.provider.value.id, s.redirectUri,
                                                      s.scope, e.now + 300 * SECOND, None, false)]
    && v.access == w.access && v.refresh == w.refresh && v.clients == w.clients
  }

  lemma UpsertAnswer(w: World, e: Event)
    requires e.WebCallback? && e.provider.Some? && e.info.Some? && GetUserByProviderID !in e.faults
    ensures var r := UpsertUser(w, e.provider.value.name, e.info.value, e.userId, e.faults);
            && (r.Some? <==> AccountAvailable(w.users, e))
            && (r.Some? ==> AccountFor(w.users, e, r.value.1, r.value.0))
  {
    var name, subject := StrPtr(e.provider.value.name), StrPtr(e.info.value.subject);
    var known := AccountsOf(w.users, name, subject);
    assert forall u :: u in known <==> u in w.users && SameIdentity(w.users[u], name, subject);
  }

  /** The callback once its cookie is accepted. */
  lemma CodeAnswersIff(w: World, e: Event, s: S.Session)
    requires e.WebCallback? && e.code !in w.codes && w.now == e.now
    ensures var o := HandleProviderCallback(w, e.client, e.provider, s.redirectUri, s.scope, e.info, e.userId, e.codeId,
                                            e.code, e.faults);
            if CodeAllowed(w, e) && CallbackUndisturbed(e) then
              o.response == IssuedCode(e.code) && CodeIssued(w, e, s, o.world)
            else
              o.response.Failed? && o.response.error != BadSession && o.world.codes == w.codes
  {
    if e.provider.Some? && e.info.Some? && GetUserByProviderID !in e.faults { UpsertAnswer(w, e); }
  }

  /** A callback issues its code exactly when its cookie fits the request and nothing else stands in the way. */
  lemma WebCallbackAnswersIff(cfg: Config, w: World, e: Event)
    requires Inv(cfg, w) && e.WebCallback? && Admissible(cfg, w, e)
    ensures var o, d := Step(cfg, w, e), S.DecodeSession(cfg.cookies, e.cookie);
            if d.Accepted? && CallbackAllowed(cfg, w, e, d.session) && CallbackUndisturbed(e) then
              o.response == IssuedCode(e.code) && CodeIssued(w, e, d.session, o.world)
            else
              o.response.Failed? && o.world.codes == w.codes
    ensures var o, d := Step(cfg, w, e), S.DecodeSession(cfg.cookies, e.cookie);
            o.response == Failed(BadSession) <==>
              !(d.Accepted? && d.session.state == e.state && d.session.client == e.client
                && d.session.provider == e.providerName)
  {
    StoredIsRecorded(cfg, w, e.code);
    var d := S.DecodeSession(cfg.cookies, e.cookie);
    if d.Accepted? { CodeAnswersIff(w.(now := e.now), e, d.session); }
  }

  /**
   Login and callback over a whole run, whatever happens in between: the cookie handed out by a login is
   good for the callback of that login and of no other, and leads to a code for the redirect URI and
   scope the login asked for.
   */
  lemma OwnCallbackIssuesCode(cfg: Config, run: History, i: nat, j: nat)
    requires Run(cfg, run) && i < |run.events| && j < |run.events|
    requires var e := run.events[i]; e.WebLogin? && run.replies[i].RedirectToProvider?
    requires run.events[j].WebCallback? && run.events[j].cookie == run.replies[i].cookie
    ensures var login, e := run.events[i], run.events[j];
            run.replies[j] == Failed(BadSession) <==>
              !(e.state == login.state && e.client == login.client && e.providerName == login.providerName)
    ensures var login, w, e := run.events[i], run.worlds[j], run.events[j];
            var s := S.Session(login.state, login.client, login.providerName, login.redirectUri, login.scope);
            if CallbackAllowed(cfg, w, e, s) && CallbackUndisturbed(e) then
              run.replies[j] == IssuedCode(e.code) && CodeIssued(w, e, s, run.worlds[j + 1])
            else run.replies[j].Failed?
  {
    RunInv(cfg, run, j);
    assert Proceeds(cfg, run, i) && Proceeds(cfg, run, j);
    var login := run.events[i];
    WebLoginAnswersIff(cfg, run.worlds[i], login);
    S.SessionRoundTrip(cfg.cookies, S.Session(login.state, login.client, login.providerName, login.redirectUri,
                                              login.scope));
    WebCallbackAnswersIff(cfg, run.worlds[j], run.events[j]);
  }
}
