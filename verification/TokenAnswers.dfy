/**
 What the token endpoint answers, said of the rows as they are when the request arrives: exactly
 which requests get tokens, what those tokens and the tables then are, and which error each
 request that is refused gets.
 */
module TokenAnswers {
  import opened Prelude
  import opened Tables
  import opened Lifecycle
  import opened Invariant
  import opened Preservation
  import opened Runs
  import opened TokenTheorems
  import opened Revocation

  /** The client is registered and active, and this is its secret. */
  predicate Authentic(cfg: Config, w: World, client: Id, secret: string) {
    client in w.clients && w.clients[client].active && w.clients[client].secretHash == cfg.sha256(secret)
  }

  /** A JWT signed now for `user`. */
  ghost predicate SignedNow(cfg: Config, jwt: string, user: Id, email: string, now: Time) {
    cfg.verify(jwt) == Some(Claims(user, email, WholeSeconds(now + cfg.accessLifetime), WholeSeconds(now)))
  }

  /** What is stored is on record, so a code or a hash that was never issued is in no table. */
  lemma StoredIsRecorded(cfg: Config, w: World, h: string)
    requires Inv(cfg, w)
    ensures h in w.codes ==> h in w.ledger.codes
    ensures h in w.access ==> h in w.ledger.access
    ensures h in w.refresh ==> h in w.ledger.refresh
  {
    if h in w.codes { assert CodeRowOk(w.codes, w.ledger, h); }
    if h in w.access { assert AccessRowOk(w.access, w.ledger, h); }
    if h in w.refresh { assert RefreshRowOk(w.refresh, w.access, w.ledger, h); }
  }

  /** The hashes of what this call would issue to `user` are in no table. */
  ghost predicate Unused(cfg: Config, w: World, user: Id, d: Draws) {
    && (user in w.users ==>
          cfg.sha256(GenerateAccessToken(cfg, user, w.users[user].email, w.now, d.nonce)) !in w.access)
    && cfg.sha256(d.token) !in w.refresh
  }

  lemma FreshIsUnused(cfg: Config, w: World, user: Id, d: Draws)
    requires Inv(cfg, w) && FreshToken(cfg, w.ledger, d) && FreshJwt(cfg, w, w.now, user, d)
    ensures Unused(cfg, w, user, d)
  {
    if user in w.users {
      StoredIsRecorded(cfg, w, cfg.sha256(GenerateAccessToken(cfg, user, w.users[user].email, w.now, d.nonce)));
    }
    StoredIsRecorded(cfg, w, cfg.sha256(d.token));
  }

  // ---------- The authorization code grant ----------

  /** The code is live, and was issued to this client for this redirect URI. */
  predicate Redeemable(w: World, code: string, client: Id, redirectUri: string, now: Time) {
    code in w.codes &&
    var a := w.codes[code];
    && !a.revoked && a.usedAt.None? && now <= a.expiresAt
    && a.client == client && a.redirectUri == redirectUri
  }

  /** With this code goes a refresh token. */
  predicate GivesRefresh(w: World, a: AuthorizationCode) {
    && a.client in w.clients && w.clients[a.client].allowRefreshTokens
    && a.scope.Some? && Contains(a.scope.value, "offline_access")
  }

  predicate ExchangeAllowed(cfg: Config, w: World, e: Event)
    requires e.Exchange?
  {
    && Authentic(cfg, w, e.client, e.secret)
    && Redeemable(w, e.code, e.client, e.redirectUri, e.now)
    && w.codes[e.code].user in w.users
  }

  /** Nothing the exchange needs fails. */
  predicate ExchangeUndisturbed(w: World, e: Event)
    requires e.Exchange? && e.code in w.codes
  {
    && e.faults !! {GetClient, GetAuthorizationCode, MarkAuthorizationCodeUsed, GetUserByID, SignAccessToken,
                    CreateAccessToken}
    && (GivesRefresh(w, w.codes[e.code]) ==> e.faults !! {GenerateToken, CreateRefreshToken})
  }

  lemma IssueForCodeSucceedsIff(cfg: Config, w: World, code: string, a: AuthorizationCode, d: Draws, faults: Faults)
    requires Unused(cfg, w, a.user, d)
    ensures IssueForCode(cfg, w, code, a, d, faults).response.Tokens? <==>
              && a.user in w.users && faults !! {GetUserByID, SignAccessToken, CreateAccessToken}
              && (GivesRefresh(w, a) ==> faults !! {GenerateToken, CreateRefreshToken})
  {}

  /** An exchange is answered with tokens exactly when client and code allow it and nothing fails. */
  lemma ExchangeSucceedsIff(cfg: Config, w: World, e: Event)
    requires Inv(cfg, w) && e.Exchange? && Admissible(cfg, w, e)
    ensures Step(cfg, w, e).response.Tokens? <==> ExchangeAllowed(cfg, w, e) && ExchangeUndisturbed(w, e)
  {
    if e.code in w.codes {
      var u, a := w.(now := e.now), w.codes[e.code];
      ClockInv(cfg, w, e.now);
      FreshIsUnused(cfg, u, a.user, e.draws);
      IssueForCodeSucceedsIff(cfg, RedeemCode(u, e.code, a.id), e.code, a, e.draws, e.faults);
    }
  }

  /** The tokens of an exchange and the tables after it: the code is used, and only new rows are added. */
  ghost predicate ExchangeIssues(cfg: Config, w: World, e: Event, o: Outcome)
    requires e.Exchange? && e.code in w.codes && w.codes[e.code].user in w.users
  {
    o.response.Tokens? &&
    var a, jwt, v := w.codes[e.code], o.response.access, o.world;
    && SignedNow(cfg, jwt, a.user, w.users[a.user].email, e.now)
    && o.response == Tokens(jwt, a.scope, if GivesRefresh(w, a) then Some(e.draws.token) else None)
    && v.now == e.now && v.clients == w.clients && v.users == w.users
    && v.codes == w.codes[e.code := a.(usedAt := Some(e.now))]
    && v.access == w.access[cfg.sha256(jwt) := AccessToken(e.draws.accessId, Some(a.client), a.user, a.scope,
                                                           e.now + cfg.accessLifetime, false)]
    && v.refresh == if !GivesRefresh(w, a) then w.refresh
                    else w.refresh[cfg.sha256(e.draws.token) :=
                           RefreshToken(e.draws.refreshId, e.draws.family, a.client, a.user, Some(e.draws.accessId),
                                        None, a.scope.value, e.now + cfg.refreshLifetime, false, None, None, None)]
  }

  lemma OnlyThisCode(cfg: Config, w: World, code: string)
    requires Inv(cfg, w) && code in w.codes
    ensures UseCode(w.codes, w.codes[code].id, w.now) == w.codes[code := w.codes[code].(usedAt := Some(w.now))]
  {
    forall c | c in w.codes && w.codes[c].id == w.codes[code].id ensures c == code {
      assert SameCode(w.codes[c], w.codes[code]);
    }
  }

  /** Issuing for a code that is already marked used. */
  lemma IssueForCodeAnswer(cfg: Config, w: World, code: string, a: AuthorizationCode, d: Draws, faults: Faults)
    requires Lawful(cfg) && IssueForCode(cfg, w, code, a, d, faults).response.Tokens?
    ensures a.user in w.users
    ensures var o := IssueForCode(cfg, w, code, a, d, faults);
            var jwt, v := o.response.access, o.world;
            && SignedNow(cfg, jwt, a.user, w.users[a.user].email, w.now)
            && o.response == Tokens(jwt, a.scope, if GivesRefresh(w, a) then Some(d.token) else None)
            && v.now == w.now && v.clients == w.clients && v.users == w.users && v.codes == w.codes
            && v.access == w.access[cfg.sha256(jwt) := AccessToken(d.accessId, Some(a.client), a.user, a.scope,
                                                                   w.now + cfg.accessLifetime, false)]
            && v.refresh == if !GivesRefresh(w, a) then w.refresh
                            else w.refresh[cfg.sha256(d.token) :=
                                   RefreshToken(d.refreshId, d.family, a.client, a.user, Some(d.accessId), None,
                                                a.scope.value, w.now + cfg.refreshLifetime, false, None, None, None)]
  {
    JwtClaims(cfg, a.user, w.users[a.user].email, w.now, d.nonce);
  }

  lemma ExchangeAnswer(cfg: Config, w: World, e: Event)
    requires Lawful(cfg) && Inv(cfg, w) && e.Exchange? && Admissible(cfg, w, e)
    requires Step(cfg, w, e).response.Tokens?
    ensures ExchangeAllowed(cfg, w, e) && ExchangeIssues(cfg, w, e, Step(cfg, w, e))
  {
    ExchangeSucceedsIff(cfg, w, e);
    ClockInv(cfg, w, e.now);
    var u, a := w.(now := e.now), w.codes[e.code];
    OnlyThisCode(cfg, u, e.code);
    assert Step(cfg, w, e) == IssueForCode(cfg, RedeemCode(u, e.code, a.id), e.code, a, e.draws, e.faults);
    IssueForCodeAnswer(cfg, RedeemCode(u, e.code, a.id), e.code, a, e.draws, e.faults);
  }

  /** Which error each refused exchange gets: the first that applies, in this order, and no table changes. */
  lemma ExchangeRefusals(cfg: Config, w: World, e: Event)
    requires e.Exchange? && e.faults !! {GetClient, GetAuthorizationCode}
    ensures var o, known := Step(cfg, w, e), Authentic(cfg, w, e.client, e.secret);
            && (o.response == Failed(ClientNotFound) <==> e.client !in w.clients)
            && (o.response == Failed(ClientInactive) <==> e.client in w.clients && !w.clients[e.client].active)
            && (o.response == Failed(InvalidClientSecret) <==>
                  e.client in w.clients && w.clients[e.client].active
                  && w.clients[e.client].secretHash != cfg.sha256(e.secret))
            && (o.response == Failed(CodeNotFound) <==> known && e.code !in w.codes)
            && (o.response == Failed(CodeRevoked) <==> known && e.code in w.codes && w.codes[e.code].revoked)
    ensures var o, known := Step(cfg, w, e), Authentic(cfg, w, e.client, e.secret) && e.code in w.codes;
            known && !w.codes[e.code].revoked ==>
              var a := w.codes[e.code];
              && (o.response == Failed(CodeUsed) <==> a.usedAt.Some?)
              && (o.response == Failed(CodeExpired) <==> a.usedAt.None? && a.expiresAt < e.now)
              && (o.response == Failed(CodeClientMismatch) <==>
                    a.usedAt.None? && e.now <= a.expiresAt && a.client != e.client)
              && (o.response == Failed(CodeRedirectMismatch) <==>
                    a.usedAt.None? && e.now <= a.expiresAt && a.client == e.client && a.redirectUri != e.redirectUri)
    ensures var o := Step(cfg, w, e);
            o.response.Failed? && o.response.error != ServerError ==> o.world == w.(now := e.now)
  {}

  /** An exchange that fails once its code is marked used has cost the client the code and issued no refresh token. */
  lemma FailedExchangeCostsTheCode(cfg: Config, w: World, e: Event)
    requires Inv(cfg, w) && e.Exchange? && Admissible(cfg, w, e)
    requires Authentic(cfg, w, e.client, e.secret) && Redeemable(w, e.code, e.client, e.redirectUri, e.now)
    requires e.faults !! {GetClient, GetAuthorizationCode, MarkAuthorizationCodeUsed}
    ensures var o := Step(cfg, w, e);
            && o.world.codes == w.codes[e.code := w.codes[e.code].(usedAt := Some(e.now))]
            && (!o.response.Tokens? ==> o.response == Failed(ServerError) && o.world.refresh == w.refresh)
  {
    ClockInv(cfg, w, e.now);
    OnlyThisCode(cfg, w.(now := e.now), e.code);
  }

  // ---------- The refresh token grant ----------

  /** The token is stored, neither revoked nor expired, and was issued to this client. */
  predicate Rotatable(w: World, h: string, client: Id, now: Time) {
    h in w.refresh && !w.refresh[h].revoked && now <= w.refresh[h].expiresAt && w.refresh[h].client == client
  }

  predicate RotationAllowed(cfg: Config, w: World, e: Event)
    requires e.Rotate?
  {
    e.clientId.Some? &&
    var h := cfg.sha256(e.token);
    && Authentic(cfg, w, e.clientId.value, e.secret)
    && Rotatable(w, h, e.clientId.value, e.now)
    && w.refresh[h].user in w.users
  }

  predicate RotationUndisturbed(e: Event)
    requires e.Rotate?
  {
    e.faults !! {GetClient, GetRefreshTokenByHash, MarkRefreshTokenUsed, GetUserByID, SignAccessToken,
                 CreateAccessToken, GenerateToken, CreateRefreshToken}
  }

  lemma SuccessorSucceedsIff(cfg: Config, w: World, hash: string, r: RefreshToken, d: Draws, faults: Faults)
    requires Unused(cfg, w, r.user, d)
    ensures IssueSuccessor(cfg, w, hash, r, d, faults).response.Tokens? <==>
              r.user in w.users
              && faults !! {GetUserByID, SignAccessToken, CreateAccessToken, GenerateToken, CreateRefreshToken}
  {}

  /** A rotation is answered with tokens exactly when client and token allow it and nothing fails. */
  lemma RotationSucceedsIff(cfg: Config, w: World, e: Event)
    requires Inv(cfg, w) && e.Rotate? && Admissible(cfg, w, e)
    ensures Step(cfg, w, e).response.Tokens? <==> RotationAllowed(cfg, w, e) && RotationUndisturbed(e)
  {
    var h := cfg.sha256(e.token);
    if h in w.refresh {
      var u, r := w.(now := e.now), w.refresh[h];
      ClockInv(cfg, w, e.now);
      FreshIsUnused(cfg, u, r.user, e.draws);
      SuccessorSucceedsIff(cfg, u.(refresh := UseRefresh(u.refresh, r.id, u.now)), h, r, e.draws, e.faults);
    }
  }

  /** The tokens of a rotation and the tables after it: the presented token is spent, its successor takes its place. */
  ghost predicate RotationIssues(cfg: Config, w: World, e: Event, o: Outcome)
    requires e.Rotate? && cfg.sha256(e.token) in w.refresh && w.refresh[cfg.sha256(e.token)].user in w.users
  {
    o.response.Tokens? &&
    var h, jwt, v := cfg.sha256(e.token), o.response.access, o.world;
    var r := w.refresh[h];
    && SignedNow(cfg, jwt, r.user, w.users[r.user].email, e.now)
    && o.response == Tokens(jwt, Some(r.scope), Some(e.draws.token))
    && v.now == e.now && v.clients == w.clients && v.users == w.users && v.codes == w.codes
    && v.access == w.access[cfg.sha256(jwt) := AccessToken(e.draws.accessId, Some(r.client), r.user, Some(r.scope),
                                                           e.now + cfg.accessLifetime, false)]
    && v.refresh == w.refresh[h := r.(usedAt := Some(e.now), revoked := true, revokeReason := Some("used"))]
                             [cfg.sha256(e.draws.token) :=
                                RefreshToken(e.draws.refreshId, r.family, r.client, r.user, Some(e.draws.accessId),
                                             Some(r.id), r.scope, e.now + cfg.refreshLifetime, false, None, None,
                                             None)]
  }

  /** Issuing for a refresh token that is already marked used. */
  lemma SuccessorAnswer(cfg: Config, w: World, hash: string, r: RefreshToken, d: Draws, faults: Faults)
    requires Lawful(cfg) && r.scope != "" && IssueSuccessor(cfg, w, hash, r, d, faults).response.Tokens?
    ensures r.user in w.users
    ensures var o := IssueSuccessor(cfg, w, hash, r, d, faults);
            var jwt, v := o.response.access, o.world;
            && SignedNow(cfg, jwt, r.user, w.users[r.user].email, w.now)
            && o.response == Tokens(jwt, Some(r.scope), Some(d.token))
            && v.now == w.now && v.clients == w.clients && v.users == w.users && v.codes == w.codes
            && v.access == w.access[cfg.sha256(jwt) := AccessToken(d.accessId, Some(r.client), r.user, Some(r.scope),
                                                                   w.now + cfg.accessLifetime, false)]
            && v.refresh == w.refresh[cfg.sha256(d.token) :=
                              RefreshToken(d.refreshId, r.family, r.client, r.user, Some(d.accessId), Some(r.id),
                                           r.scope, w.now + cfg.refreshLifetime, false, None, None, None)]
  {
    JwtClaims(cfg, r.user, w.users[r.user].email, w.now, d.nonce);
  }

  /** Every family was granted some scope. */
  lemma ScopeIsNotEmpty(cfg: Config, w: World, h: string)
    requires Inv(cfg, w) && h in w.refresh
    ensures w.refresh[h].scope != ""
  {
    assert RefreshRowOk(w.refresh, w.access, w.ledger, h);
    assert RefreshOriginOk(w.ledger, h);
    assert FamilyOk(w.ledger, w.refresh[h].family);
  }

  lemma RotationAnswer(cfg: Config, w: World, e: Event)
    requires Lawful(cfg) && Inv(cfg, w) && e.Rotate? && Admissible(cfg, w, e)
    requires Step(cfg, w, e).response.Tokens?
    ensures RotationAllowed(cfg, w, e) && RotationIssues(cfg, w, e, Step(cfg, w, e))
  {
    RotationSucceedsIff(cfg, w, e);
    ClockInv(cfg, w, e.now);
    var u, h := w.(now := e.now), cfg.sha256(e.token);
    var r := w.refresh[h];
    ScopeIsNotEmpty(cfg, w, h);
    OnlyThisIsUsed(cfg, u, h);
    var used := u.(refresh := UseRefresh(u.refresh, r.id, u.now));
    assert Step(cfg, w, e) == IssueSuccessor(cfg, used, h, r, e.draws, e.faults);
    SuccessorAnswer(cfg, used, h, r, e.draws, e.faults);
  }

  /** Which error each refused rotation gets. Only a revoked token, presented again, changes anything. */
  lemma RotationRefusals(cfg: Config, w: World, e: Event)
    requires e.Rotate? && e.faults !! {GetClient, GetRefreshTokenByHash}
    ensures var o, c, h := Step(cfg, w, e), e.clientId, cfg.sha256(e.token);
            var known := c.Some? && Authentic(cfg, w, c.value, e.secret);
            && (o.response == Failed(ClientNotFound) <==> c.Some? && c.value !in w.clients)
            && (o.response == Failed(ClientInactive) <==>
                  c.Some? && c.value in w.clients && !w.clients[c.value].active)
            && (o.response == Failed(InvalidClientSecret) <==>
                  c.Some? && c.value in w.clients && w.clients[c.value].active
                  && w.clients[c.value].secretHash != cfg.sha256(e.secret))
            && (o.response == Failed(TokenExpired) <==>
                  known && h in w.refresh && !w.refresh[h].revoked && w.refresh[h].expiresAt < e.now)
            && (o.response == Failed(InvalidGrant) <==>
                  || c.None?
                  || (known && h !in w.refresh)
                  || (known && h in w.refresh && w.refresh[h].revoked)
                  || (known && h in w.refresh && e.now <= w.refresh[h].expiresAt && w.refresh[h].client != c.value))
    ensures var o, h := Step(cfg, w, e), cfg.sha256(e.token);
            o.response.Failed? && o.response.error != ServerError && !(h in w.refresh && w.refresh[h].revoked) ==>
              o.world == w.(now := e.now)
  {}

  /** A rotation that fails once its token is marked used leaves the family without a live token. */
  lemma FailedRotationSpendsTheToken(cfg: Config, w: World, e: Event)
    requires Inv(cfg, w) && e.Rotate? && Admissible(cfg, w, e)
    requires e.clientId.Some? && Authentic(cfg, w, e.clientId.value, e.secret)
    requires Rotatable(w, cfg.sha256(e.token), e.clientId.value, e.now)
    requires e.faults !! {GetClient, GetRefreshTokenByHash, MarkRefreshTokenUsed}
    requires !Step(cfg, w, e).response.Tokens?
    ensures var o, h := Step(cfg, w, e), cfg.sha256(e.token);
            && o.response == Failed(ServerError)
            && o.world.refresh == w.refresh[h := w.refresh[h].(usedAt := Some(e.now), revoked := true,
                                                               revokeReason := Some("used"))]
    ensures forall k :: k in w.refresh && w.refresh[k].family == w.refresh[cfg.sha256(e.token)].family ==>
              !Live(Step(cfg, w, e).world, k)
  {
    var u, h := w.(now := e.now), cfg.sha256(e.token);
    ClockInv(cfg, w, e.now);
    OnlyThisIsUsed(cfg, u, h);
    assert Step(cfg, w, e) == ReplaceToken(cfg, u, h, w.refresh[h], e.draws, e.faults);
    forall k | k in w.refresh && w.refresh[k].family == w.refresh[h].family
      ensures !Live(Step(cfg, w, e).world, k)
    {
      if k != h && Live(w, k) { OneLivePerFamily(cfg, w, h, k); }
    }
  }

  // ---------- Over whole runs ----------

  /** Every event of every run: tokens go to whom they were granted, for the client that proves who it is. */
  lemma TokensIff(cfg: Config, run: History, i: nat)
    requires Run(cfg, run) && i < |run.events|
    ensures var w, e, r := run.worlds[i], run.events[i], run.replies[i];
            && (e.Exchange? ==> (r.Tokens? <==> ExchangeAllowed(cfg, w, e) && ExchangeUndisturbed(w, e)))
            && (e.Rotate? ==> (r.Tokens? <==> RotationAllowed(cfg, w, e) && RotationUndisturbed(e)))
  {
    RunInv(cfg, run, i);
    assert Proceeds(cfg, run, i);
    if run.events[i].Exchange? { ExchangeSucceedsIff(cfg, run.worlds[i], run.events[i]); }
    if run.events[i].Rotate? { RotationSucceedsIff(cfg, run.worlds[i], run.events[i]); }
  }

  /** A refresh token is rotated only for the client it was issued to, by its secret, and only before it expires. */
  lemma RotatedOnlyForItsClient(cfg: Config, run: History, i: nat, h: string)
    requires Run(cfg, run) && i < |run.events| && Rotates(cfg, run.events[i], run.replies[i], h)
    ensures var w, e := run.worlds[i], run.events[i];
            && Live(w, h)
            && e.clientId == Some(w.refresh[h].client) && e.now <= w.refresh[h].expiresAt
            && Authentic(cfg, w, w.refresh[h].client, e.secret)
  {
    TokensIff(cfg, run, i);
  }

  // ---------- Who may call the revocation endpoint ----------

  /** A token that a request may carry: its claims are in time, and it is not stored as revoked. */
  predicate Presentable(cfg: Config, w: World, token: string, now: Time) {
    && cfg.verify(token).Some?
    && cfg.verify(token).value.notBefore <= now < cfg.verify(token).value.expiresAt
    && !(cfg.sha256(token) in w.access && w.access[cfg.sha256(token)].revoked)
  }

  predicate Known(cfg: Config, w: World, caller: Caller, now: Time, faults: Faults) {
    match caller
    case Basic(client, secret) => client.Some? && Authentic(cfg, w, client.value, secret) && GetClient !in faults
    case Bearer(jwt) => jwt != "" && Presentable(cfg, w, jwt, now) && GetAccessToken !in faults
    case Nobody => false
  }

  /** A revocation request is answered `Done` for a known caller; any other is unauthorized and changes nothing. */
  lemma RevocationAnswersIff(cfg: Config, w: World, e: Event)
    requires e.Revoke?
    ensures var o := Step(cfg, w, e);
            if Known(cfg, w, e.caller, e.now, e.faults) then o.response == Done
            else o == Outcome(w.(now := e.now), Failed(Unauthorized))
  {}
}
