/** Revocation: an access token once revoked is never accepted again, and what RFC 7009 revocation does. */
module Revocation {
  import opened Prelude
  import opened Tables
  import opened Lifecycle
  import opened Invariant
  import opened Preservation
  import opened Runs
  import opened TokenTheorems
  import S = SessionCookie

  // ---------- Access tokens in one step ----------

  /** Every access token row was there before and no less revoked, or has a hash never stored before. */
  ghost predicate AccessKept(w: World, v: World) {
    forall h :: h in v.access && h in w.ledger.access ==>
      h in w.access && (w.access[h].revoked ==> v.access[h].revoked)
  }

  /** The table after issuing at most one token, under hash `h`. */
  ghost predicate AtMostOneMore(t: AccessTokens, v: World, h: string) {
    v.access == t || (h in v.access && v.access == t[h := v.access[h]])
  }

  lemma IssueForCodeAccess(cfg: Config, w: World, code: string, a: AuthorizationCode, d: Draws, faults: Faults)
    ensures var v := IssueForCode(cfg, w, code, a, d, faults).world;
            v.access == w.access || (a.user in w.users &&
              AtMostOneMore(w.access, v, cfg.sha256(GenerateAccessToken(cfg, a.user, w.users[a.user].email, w.now,
                                                                        d.nonce))))
  {}

  lemma SuccessorAccess(cfg: Config, w: World, hash: string, r: RefreshToken, d: Draws, faults: Faults)
    ensures var v := IssueSuccessor(cfg, w, hash, r, d, faults).world;
            v.access == w.access || (r.user in w.users &&
              AtMostOneMore(w.access, v, cfg.sha256(GenerateAccessToken(cfg, r.user, w.users[r.user].email, w.now,
                                                                        d.nonce))))
  {}

  lemma ExchangeKeepsAccess(cfg: Config, w: World, e: Event)
    requires Admissible(cfg, w, e) && e.now == w.now && e.Exchange?
    ensures AccessKept(w, ExchangeCode(cfg, w, e.code, e.client, e.secret, e.redirectUri, e.draws, e.faults).world)
  {
    if e.code in w.codes {
      var a := w.codes[e.code];
      IssueForCodeAccess(cfg, RedeemCode(w, e.code, a.id), e.code, a, e.draws, e.faults);
    }
  }

  lemma RotateKeepsAccess(cfg: Config, w: World, e: Event)
    requires Admissible(cfg, w, e) && e.now == w.now && e.Rotate?
    ensures AccessKept(w, RotateToken(cfg, w, e.token, e.clientId, e.secret, e.draws, e.faults).world)
  {
    var p := cfg.sha256(e.token);
    if p in w.refresh {
      var r := w.refresh[p];
      SuccessorAccess(cfg, w.(refresh := UseRefresh(w.refresh, r.id, w.now)), p, r, e.draws, e.faults);
    }
  }

  lemma StoreLoginAddsOne(cfg: Config, w: World, user: Id, jwt: string, d: Draws, faults: Faults)
    ensures AtMostOneMore(w.access, StoreLoginToken(cfg, w, user, jwt, d, faults).world, cfg.sha256(jwt))
  {}

  lemma LoginKeepsAccess(cfg: Config, w: World, e: Event)
    requires Admissible(cfg, w, e) && e.now == w.now && e.Login?
    ensures AccessKept(w, LoginUser(cfg, w, e.user, e.draws, e.faults).world)
  {
    if e.user in w.users {
      var jwt := GenerateAccessToken(cfg, e.user, w.users[e.user].email, w.now, e.draws.nonce);
      StoreLoginAddsOne(cfg, w.(access := RevokeAccessOfUser(w.access, e.user)), e.user, jwt, e.draws, e.faults);
    }
  }

  lemma EndSessionsKeepsAccess(cfg: Config, w: World, user: Id, email: string, d: Draws, faults: Faults)
    ensures AtMostOneMore(w.access, EndSessions(cfg, w, user, email, d, faults).world,
                          cfg.sha256(GenerateAccessToken(cfg, user, email, w.now, d.nonce)))
  {
    var w1 := if RevokeRefreshTokensByUser in faults then w
              else w.(refresh := RevokeRefreshOfUser(w.refresh, user, "password_change", w.now));
    StoreLoginAddsOne(cfg, w1, user, GenerateAccessToken(cfg, user, email, w.now, d.nonce), d, faults);
  }

  lemma PasswordKeepsAccess(cfg: Config, w: World, e: Event)
    requires Admissible(cfg, w, e) && e.now == w.now && e.ChangePassword?
    ensures AccessKept(w, ChangeUserPassword(cfg, w, e.user, e.policyOk, e.newHash, e.draws, e.faults).world)
  {
    if e.user in w.users {
      var u1 := PasswordSet(w.users, e.user, e.newHash);
      var u2 := FlagCleared(u1, e.user);
      EndSessionsKeepsAccess(cfg, w.(users := u2), e.user, w.users[e.user].email, e.draws, e.faults);
    }
  }

  lemma IssueCodeKeepsAccess(w: World, client: Id, provider: Id, redirectUri: string, scope: Option<string>, user: Id,
                             users: map<Id, User>, codeId: Id, code: string, faults: Faults)
    ensures IssueCodeTo(w, client, provider, redirectUri, scope, user, users, codeId, code, faults).world.access
            == w.access
  {}

  lemma CallbackKeepsAccess(w: World, e: Event, redirectUri: string, scope: Option<string>)
    requires e.WebCallback?
    ensures HandleProviderCallback(w, e.client, e.provider, redirectUri, scope, e.info, e.userId, e.codeId, e.code,
                                   e.faults).world.access == w.access
  {
    if e.provider.Some? && e.info.Some? {
      var u := UpsertUser(w, e.provider.value.name, e.info.value, e.userId, e.faults);
      if u.Some? {
        IssueCodeKeepsAccess(w, e.client, e.provider.value.id, redirectUri, scope, u.value.0, u.value.1, e.codeId,
                             e.code, e.faults);
      }
    }
  }

  lemma WebKeepsAccess(cfg: Config, w: World, e: Event)
    requires e.now == w.now && (e.WebLogin? || e.WebCallback?)
    ensures Step(cfg, w, e).world.access == w.access
  {
    if e.WebCallback? {
      var decoded := S.DecodeSession(cfg.cookies, e.cookie);
      if decoded.Accepted? { CallbackKeepsAccess(w, e, decoded.session.redirectUri, decoded.session.scope); }
    }
  }

  lemma TightensKeepsAccess(w: World, v: World)
    requires Tightens(w, v)
    ensures forall h :: h in v.access ==> h in w.access && (w.access[h].revoked ==> v.access[h].revoked)
  {}

  lemma TighteningKeepsAccess(cfg: Config, w: World, e: Event)
    requires OnlyTightens(e) && w.now <= e.now
    ensures AccessKept(w, Step(cfg, w, e).world)
  {
    TighteningEvents(cfg, w, e);
    TightensKeepsAccess(w, Step(cfg, w, e).world);
  }

  lemma StepKeepsAccess(cfg: Config, w: World, e: Event, r: Response, v: World)
    requires Transition(cfg, w, e, r, v)
    ensures AccessKept(w, v)
  {
    var u := w.(now := e.now);
    if OnlyTightens(e) { TighteningKeepsAccess(cfg, w, e); }
    else if e.Exchange? { ExchangeKeepsAccess(cfg, u, e); }
    else if e.Rotate? { RotateKeepsAccess(cfg, u, e); }
    else if e.Login? { LoginKeepsAccess(cfg, u, e); }
    else if e.ChangePassword? { PasswordKeepsAccess(cfg, u, e); }
    else { WebKeepsAccess(cfg, u, e); }
  }

  // ---------- Revocation is permanent ----------

  /** An issued access token that is not stored unrevoked. */
  predicate AccessDead(w: World, h: string) {
    h in w.ledger.access && (h in w.access ==> w.access[h].revoked)
  }

  /** Its JWT is refused, whenever it is presented: if the row is gone, the JWT has expired too. */
  lemma DeadIsRefused(cfg: Config, w: World, h: string, now: Time, faults: Faults)
    requires Inv(cfg, w) && AccessDead(w, h) && w.now <= now
    ensures !Admit(cfg, w.(now := now), w.ledger.access[h].jwt, faults).Admitted?
  {
    assert AccessOriginOk(cfg, w.ledger, h);
    assert GoneOnlyExpired(w.access, w.now, w.ledger, h);
  }

  lemma DeadIsKept(cfg: Config, w: World, e: Event, r: Response, v: World, h: string)
    requires Transition(cfg, w, e, r, v) && AccessDead(w, h)
    ensures AccessDead(v, h) && v.ledger.access[h] == w.ledger.access[h]
  {
    StepKeepsAccess(cfg, w, e, r, v);
    HistoryGrows(cfg, w, e, r, v);
  }

  lemma DeadIsKeptAt(cfg: Config, run: History, i: nat, h: string)
    requires Run(cfg, run) && i < |run.events| && AccessDead(run.worlds[i], h)
    ensures AccessDead(run.worlds[i + 1], h)
    ensures run.worlds[i + 1].ledger.access[h] == run.worlds[i].ledger.access[h]
  {
    assert Proceeds(cfg, run, i);
    DeadIsKept(cfg, run.worlds[i], run.events[i], run.replies[i], run.worlds[i + 1], h);
  }

  lemma {:induction false} DeadStaysDead(cfg: Config, run: History, i: nat, j: nat, h: string)
    requires Run(cfg, run) && i <= j < |run.worlds| && AccessDead(run.worlds[i], h)
    ensures AccessDead(run.worlds[j], h)
    ensures run.worlds[j].ledger.access[h] == run.worlds[i].ledger.access[h]
  {
    if i == j {
    } else {
      DeadStaysDead(cfg, run, i, j - 1, h);
      DeadIsKeptAt(cfg, run, j - 1, h);
    }
  }

  /**
   If at some point of a run the stored access token `h` is revoked, the JWT it was issued
   for is refused at every later point, even after cleanup has deleted its row.
   */
  lemma RevocationIsPermanent(cfg: Config, run: History, i: nat, j: nat, h: string, now: Time, faults: Faults)
    requires Run(cfg, run) && i <= j < |run.worlds|
    requires h in run.worlds[i].access && run.worlds[i].access[h].revoked
    requires run.worlds[j].now <= now
    ensures h in run.worlds[i].ledger.access && cfg.sha256(run.worlds[i].ledger.access[h].jwt) == h
    ensures !Admit(cfg, run.worlds[j].(now := now), run.worlds[i].ledger.access[h].jwt, faults).Admitted?
  {
    RunInv(cfg, run, i);
    assert AccessRowOk(run.worlds[i].access, run.worlds[i].ledger, h);
    assert AccessOriginOk(cfg, run.worlds[i].ledger, h);
    DeadStaysDead(cfg, run, i, j, h);
    RunInv(cfg, run, j);
    DeadIsRefused(cfg, run.worlds[j], h, now, faults);
  }

  /** The claims do not admit anyone at this time. */
  predicate OutOfTime(claims: Claims, now: Time) {
    !(now < claims.expiresAt) || now < claims.notBefore
  }

  /** The hash of exactly this text is stored, revoked. */
  predicate StoredRevoked(cfg: Config, w: World, token: string) {
    cfg.sha256(token) in w.access && w.access[cfg.sha256(token)].revoked
  }

  /**
   Revocation is by the hash of the token's exact text. Every text that verifies to the claims of a
   revoked token is refused too exactly when the claims are out of time or each other such text is
   itself stored and revoked. The JWT library's decoder ignores unused bits, so a signature whose length
   is no multiple of three has other spellings (`Base64.OneSpellingIff`).
   */
  lemma SpellingsRefusedIff(cfg: Config, run: History, i: nat, j: nat, h: string, now: Time)
    requires Run(cfg, run) && i <= j < |run.worlds|
    requires h in run.worlds[i].access && run.worlds[i].access[h].revoked
    requires run.worlds[j].now <= now
    ensures h in run.worlds[i].ledger.access && cfg.verify(run.worlds[i].ledger.access[h].jwt).Some?
    ensures var jwt, w := run.worlds[i].ledger.access[h].jwt, run.worlds[j].(now := now);
            (forall t :: cfg.verify(t) == cfg.verify(jwt) ==> !Admit(cfg, w, t, {}).Admitted?)
            <==> OutOfTime(cfg.verify(jwt).value, now)
                 || forall t :: t != jwt && cfg.verify(t) == cfg.verify(jwt) ==> StoredRevoked(cfg, w, t)
  {
    RevocationIsPermanent(cfg, run, i, j, h, now, {});
    RunInv(cfg, run, i);
    assert AccessOriginOk(cfg, run.worlds[i].ledger, h);
    var jwt, w := run.worlds[i].ledger.access[h].jwt, run.worlds[j].(now := now);
    forall t | cfg.verify(t) == cfg.verify(jwt)
      ensures Admit(cfg, w, t, {}).Admitted? <==> !OutOfTime(cfg.verify(jwt).value, now) && !StoredRevoked(cfg, w, t) {}
  }

  // ---------- RFC 7009 ----------

  /** What the revocation endpoint does to the tables when nothing fails. */
  ghost predicate RevokedExactly(cfg: Config, w: World, token: string, hint: string, v: World) {
    var h := cfg.sha256(token);
    if hint != "access_token" && Live(w, h) then
      && v.refresh == w.refresh[h := Revoked(w.refresh[h], "client_revoked", w.now)]
      && h in w.ledger.refresh
      && var a := w.ledger.refresh[h].access;
         v.access == if a in w.access then w.access[a := w.access[a].(revoked := true)] else w.access
    else if h in w.access then
      v.refresh == w.refresh && v.access == w.access[h := w.access[h].(revoked := true)]
    else v.refresh == w.refresh && v.access == w.access
  }

  lemma OnlyThisRefresh(cfg: Config, w: World, h: string, reason: string)
    requires Inv(cfg, w) && h in w.refresh
    ensures RevokeRefresh(w.refresh, w.refresh[h].id, reason, w.now)
            == w.refresh[h := Revoked(w.refresh[h], reason, w.now)]
  {
    assert RefreshRowOk(w.refresh, w.access, w.ledger, h);
    forall k | k in w.refresh && w.refresh[k].id == w.refresh[h].id ensures k == h {
      assert RefreshRowOk(w.refresh, w.access, w.ledger, k);
      assert SameSlot(w.ledger.refresh[k], w.ledger.refresh[h]);
    }
  }

  /** Marking a token used changes its own row and no other. */
  lemma OnlyThisIsUsed(cfg: Config, w: World, h: string)
    requires Inv(cfg, w) && h in w.refresh
    ensures UseRefresh(w.refresh, w.refresh[h].id, w.now)
            == w.refresh[h := w.refresh[h].(usedAt := Some(w.now), revoked := true, revokeReason := Some("used"))]
  {
    assert RefreshRowOk(w.refresh, w.access, w.ledger, h);
    forall k | k in w.refresh && w.refresh[k].id == w.refresh[h].id ensures k == h {
      assert RefreshRowOk(w.refresh, w.access, w.ledger, k);
      assert SameSlot(w.ledger.refresh[k], w.ledger.refresh[h]);
    }
  }

  /** Replay detection leaves the family of the presented token dead for good and every other family as it was. */
  lemma ReplayKillsFamily(cfg: Config, w: World, h: string)
    requires Inv(cfg, w) && h in w.refresh
    ensures var f, v := w.refresh[h].family, w.(refresh := RevokeFamily(w.refresh, w.refresh[h].family,
                                                                        "replay_detected", w.now));
            && FamilyDead(v, f)
            && forall k :: k in w.refresh && w.refresh[k].family != f ==> k in v.refresh && v.refresh[k] == w.refresh[k]
  {
    assert RefreshRowOk(w.refresh, w.access, w.ledger, h);
    assert RefreshOriginOk(w.ledger, h);
    assert FamilyOk(w.ledger, w.refresh[h].family);
  }

  /**
   Cleanup deletes exactly the expired access tokens, changes no other column of a refresh token, and
   leaves a link exactly where the access token the refresh token was issued with is still stored.
   */
  lemma CleanupIsExact(cfg: Config, w: World, h: string)
    requires Inv(cfg, w)
    ensures var v := CleanAccess(w);
            && (h in v.access <==> h in w.access && w.now <= w.access[h].expiresAt)
            && (h in v.access ==> v.access[h] == w.access[h])
            && (h in v.refresh <==> h in w.refresh)
            && (h in v.refresh ==>
                  && v.refresh[h] == w.refresh[h].(access := v.refresh[h].access)
                  && h in w.ledger.refresh
                  && (v.refresh[h].access.Some? <==> w.ledger.refresh[h].access in v.access))
  {
    var v := CleanAccess(w);
    if h in w.refresh {
      assert RefreshRowOk(w.refresh, w.access, w.ledger, h);
      var a := w.ledger.refresh[h].access;
      if v.refresh[h].access.Some? {
        var k :| k in v.access && v.access[k].id == v.refresh[h].access.value;
        assert AccessRowOk(w.access, w.ledger, k);
        assert SameAccess(w.ledger.access[k], w.ledger.access[a]);
      }
      if a in v.access {
        assert AccessRowOk(w.access, w.ledger, a);
        assert AccessStored(v.access, w.refresh[h].access.value);
      }
    }
  }

  lemma OnlyThisAccess(cfg: Config, w: World, a: string)
    requires Inv(cfg, w) && a in w.ledger.access
    ensures RevokeAccess(w.access, w.ledger.access[a].id)
            == if a in w.access then w.access[a := w.access[a].(revoked := true)] else w.access
  {
    if a in w.access { assert AccessRowOk(w.access, w.ledger, a); }
    forall k | k in w.access && w.access[k].id == w.ledger.access[a].id ensures k == a {
      assert AccessRowOk(w.access, w.ledger, k);
      assert SameAccess(w.ledger.access[k], w.ledger.access[a]);
    }
  }

  /**
   The effect and the frame: a live refresh token (unless the hint says access token) loses
   its own row and its stored access token; a stored access token is revoked under any hint;
   any other token, known or not, changes nothing; and no other row of any table changes.
   */
  lemma RevocationEffect(cfg: Config, w: World, token: string, hint: string)
    requires Inv(cfg, w)
    ensures var v := RevokeAnyToken(cfg, w, token, hint, {}).world;
            && RevokedExactly(cfg, w, token, hint, v)
            && v == w.(refresh := v.refresh, access := v.access)
  {
    var h := cfg.sha256(token);
    if h in w.refresh {
      assert RefreshRowOk(w.refresh, w.access, w.ledger, h);
      var a := w.ledger.refresh[h].access;
      OnlyThisRefresh(cfg, w, h, "client_revoked");
      OnlyThisAccess(cfg, w, a);
    }
    if h in w.access {
      assert AccessRowOk(w.access, w.ledger, h);
      assert AccessOriginOk(cfg, w.ledger, h);
      OnlyThisAccess(cfg, w, h);
      assert w.access[h].revoked ==> w.access[h := w.access[h].(revoked := true)] == w.access;
    }
  }

  /**
   A wrong hint matters exactly when it says access token and the token is a live refresh token: then
   the refresh tokens are not searched and nothing is revoked. Section 2.1 of RFC 7009 has the server
   extend its search in this case.
   */
  lemma HintMattersIff(cfg: Config, w: World, token: string, hint: string)
    requires Inv(cfg, w)
    ensures RevokeAnyToken(cfg, w, token, hint, {}) == RevokeAnyToken(cfg, w, token, "", {})
            <==> !(hint == "access_token" && Live(w, cfg.sha256(token)))
    ensures hint == "access_token" && Live(w, cfg.sha256(token))
            ==> RevokeAnyToken(cfg, w, token, hint, {}) == Outcome(w, Done)
  {
    var h := cfg.sha256(token);
    if h in w.refresh {
      assert RefreshRowOk(w.refresh, w.access, w.ledger, h);
      if Live(w, h) {
        RevocationEffect(cfg, w, token, "");
        assert RevokeAnyToken(cfg, w, token, "", {}).world.refresh[h].revoked;
      }
      forall k | k in w.access ensures k !in w.ledger.refresh {
        assert AccessRowOk(w.access, w.ledger, k);
        assert AccessOriginOk(cfg, w.ledger, k);
      }
    }
  }

  /** A row the call would revoke. */
  predicate Revocable(cfg: Config, w: World, token: string, hint: string) {
    var h := cfg.sha256(token);
    (hint != "access_token" && Live(w, h)) || (h in w.access && !w.access[h].revoked)
  }

  /** The caller is the client the token was issued to. */
  predicate OwnClient(cfg: Config, w: World, caller: Caller, token: string) {
    var h := cfg.sha256(token);
    && caller.Basic? && caller.client.Some?
    && (|| (h in w.refresh && w.refresh[h].client == caller.client.value)
        || (h in w.access && w.access[h].client == caller.client))
  }

  /** Whoever the caller is: an authenticated request revokes whatever can be revoked. */
  lemma AnyCallerRevokes(cfg: Config, w: World, caller: Caller, token: string, hint: string)
    requires Inv(cfg, w) && token != ""
    ensures RevokeRequest(cfg, w, caller, token, hint, {}).world != w
            <==> Authenticates(cfg, w, caller, {}) && Revocable(cfg, w, token, hint)
  {
    var h, v := cfg.sha256(token), RevokeAnyToken(cfg, w, token, hint, {}).world;
    RevocationEffect(cfg, w, token, hint);
    if hint != "access_token" && Live(w, h) {
      assert v.refresh[h].revoked;
    } else if h in w.access && !w.access[h].revoked {
      assert v.access[h].revoked;
    } else if h in w.access {
      assert w.access[h := w.access[h].(revoked := true)] == w.access;
    }
  }

  /**
   Section 2.1 of RFC 7009 has the server check that the token was issued to the client that asks. The
   code does not: only the token's own client can revoke it exactly when there is nothing to revoke, or
   nobody else can authenticate at all.
   */
  lemma OnlyOwnClientRevokesIff(cfg: Config, w: World, token: string, hint: string)
    requires Inv(cfg, w) && token != ""
    ensures (forall caller ::
               RevokeRequest(cfg, w, caller, token, hint, {}).world != w ==> OwnClient(cfg, w, caller, token))
            <==> !Revocable(cfg, w, token, hint)
                 || forall caller :: Authenticates(cfg, w, caller, {}) ==> OwnClient(cfg, w, caller, token)
  {
    forall caller ensures RevokeRequest(cfg, w, caller, token, hint, {}).world != w
                          <==> Authenticates(cfg, w, caller, {}) && Revocable(cfg, w, token, hint) {
      AnyCallerRevokes(cfg, w, caller, token, hint);
    }
  }

  /** So a second active client can revoke the first one's tokens. */
  lemma OtherClientRevokes(cfg: Config, w: World, other: Id, secret: string, token: string, hint: string)
    requires Inv(cfg, w) && token != "" && Revocable(cfg, w, token, hint)
    requires other in w.clients && w.clients[other].active && w.clients[other].secretHash == cfg.sha256(secret)
    ensures RevokeRequest(cfg, w, Basic(Some(other), secret), token, hint, {}).world != w
  {
    AnyCallerRevokes(cfg, w, Basic(Some(other), secret), token, hint);
  }

  /** After it, a refresh token that was live is spent with its whole family, and its access token is dead. */
  lemma RevokedTokenIsUnusable(cfg: Config, w: World, token: string, hint: string)
    requires Inv(cfg, w) && Live(w, cfg.sha256(token)) && hint != "access_token"
    ensures var v, h := RevokeAnyToken(cfg, w, token, hint, {}).world, cfg.sha256(token);
            && FamilyDead(v, w.refresh[h].family)
            && h in w.ledger.refresh && AccessDead(v, w.ledger.refresh[h].access)
  {
    var h := cfg.sha256(token);
    var v := RevokeAnyToken(cfg, w, token, hint, {}).world;
    RevocationEffect(cfg, w, token, hint);
    assert RefreshRowOk(w.refresh, w.access, w.ledger, h);
    assert RefreshOriginOk(w.ledger, h);
    assert FamilyOk(w.ledger, w.refresh[h].family);
    forall k | k in v.refresh && v.refresh[k].family == w.refresh[h].family ensures v.refresh[k].revoked {
      if k != h && Live(w, k) { OneLivePerFamily(cfg, w, h, k); }
    }
  }

  /** Repeating the call changes nothing more. */
  lemma RevocationIsIdempotent(cfg: Config, w: World, token: string, hint: string)
    requires Inv(cfg, w)
    ensures var v := RevokeAnyToken(cfg, w, token, hint, {}).world;
            RevokeAnyToken(cfg, v, token, hint, {}).world == v
  {
    RevocationEffect(cfg, w, token, hint);
    var h := cfg.sha256(token);
    if h in w.refresh {
      assert RefreshRowOk(w.refresh, w.access, w.ledger, h);
    }
    if h in w.access {
      assert AccessRowOk(w.access, w.ledger, h);
      assert AccessOriginOk(cfg, w.ledger, h);
    }
  }
}
