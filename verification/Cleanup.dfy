/**
 Expiry cleanup is invisible: a server whose expired codes and access tokens are
 deleted from time to time answers the token endpoint, and admits requests, exactly as
 one that never deletes them.
 */
module Cleanup {
  import opened Prelude
  import opened Tables
  import opened Lifecycle
  import opened Invariant
  import opened Preservation
  import opened Runs
  import S = SessionCookie

  // ---------- The simulation ----------

  /** The code is the same in both tables, or has been deleted from `t` after it expired. */
  ghost predicate CodeRowSim(t: Codes, u: Codes, now: Time, c: string) {
    && (c in t ==> c in u && t[c] == u[c])
    && (c in u && c !in t ==> u[c].expiresAt < now)
  }

  ghost predicate CodesSim(t: Codes, u: Codes, now: Time) {
    forall c {:trigger CodeRowSim(t, u, now, c)} :: CodeRowSim(t, u, now, c)
  }

  /** The access token is the same in both tables, or has been deleted from `t` after it expired. */
  ghost predicate AccessRowSim(t: AccessTokens, u: AccessTokens, now: Time, h: string) {
    && (h in t ==> h in u && t[h] == u[h])
    && (h in u && h !in t ==> u[h].expiresAt < now)
  }

  ghost predicate AccessSim(t: AccessTokens, u: AccessTokens, now: Time) {
    forall h {:trigger AccessRowSim(t, u, now, h)} :: AccessRowSim(t, u, now, h)
  }

  /** The same refresh token, but for a link to an access token that was deleted. */
  ghost predicate RowSim(a: RefreshToken, b: RefreshToken, access: AccessTokens) {
    && a == b.(access := a.access)
    && (a.access == b.access || (a.access.None? && b.access.Some? && !AccessStored(access, b.access.value)))
  }

  ghost predicate RefreshSim(t: RefreshTokens, u: RefreshTokens, access: AccessTokens) {
    t.Keys == u.Keys && forall h {:trigger RowSim(t[h], u[h], access)} :: h in t ==> RowSim(t[h], u[h], access)
  }

  /** `w` is `v` after some cleaning up. */
  ghost predicate Sim(w: World, v: World) {
    && v.now <= w.now
    && w.clients == v.clients && w.users == v.users && w.ledger == v.ledger
    && CodesSim(w.codes, v.codes, w.now) && AccessSim(w.access, v.access, w.now)
    && RefreshSim(w.refresh, v.refresh, w.access)
  }

  // ---------- What a client can see ----------

  datatype TokenAnswer =
    | Granted(access: string, scope: Option<string>, refresh: Option<string>)
    | InvalidClient | InvalidGrantError | ServerFailure

  /** The response of the token endpoint: its error codes merge many of the service's errors. */
  function TokenEndpoint(r: Response): (a: TokenAnswer) {
    match r
    case Tokens(access, scope, refresh) => Granted(access, scope, refresh)
    case Failed(e) =>
      if e.ClientNotFound? || e.ClientInactive? || e.InvalidClientSecret? then InvalidClient
      else if e.CodeNotFound? || e.CodeExpired? || e.CodeUsed? || e.CodeRevoked? || e.CodeClientMismatch?
              || e.CodeRedirectMismatch? || e.InvalidGrant? || e.TokenExpired? then InvalidGrantError
      else ServerFailure
    case _ => ServerFailure
  }

  /** Code exchanges and rotations get the same answer; requests the same accept/refuse decision. */
  ghost predicate SameView(e: Event, r: Response, s: Response) {
    && (e.Exchange? || e.Rotate? ==> TokenEndpoint(r) == TokenEndpoint(s))
    && (e.Request? ==> r == s)
  }

  /** SHA-256 does not collide: a token with the hash of an issued access token is that token. */
  ghost predicate NoCollision(cfg: Config, l: Ledger, token: string) {
    cfg.sha256(token) in l.access ==> l.access[cfg.sha256(token)].jwt == token
  }

  // ---------- Statements ----------

  lemma UseRefreshSim(t: RefreshTokens, u: RefreshTokens, access: AccessTokens, id: Id, now: Time)
    requires RefreshSim(t, u, access)
    ensures RefreshSim(UseRefresh(t, id, now), UseRefresh(u, id, now), access)
  {
    var t', u' := UseRefresh(t, id, now), UseRefresh(u, id, now);
    forall h | h in t' ensures RowSim(t'[h], u'[h], access) { assert RowSim(t[h], u[h], access); }
  }

  lemma RevokeRefreshSim(t: RefreshTokens, u: RefreshTokens, access: AccessTokens, id: Id, reason: string, now: Time)
    requires RefreshSim(t, u, access)
    ensures RefreshSim(RevokeRefresh(t, id, reason, now), RevokeRefresh(u, id, reason, now), access)
  {
    var t', u' := RevokeRefresh(t, id, reason, now), RevokeRefresh(u, id, reason, now);
    forall h | h in t' ensures RowSim(t'[h], u'[h], access) { assert RowSim(t[h], u[h], access); }
  }

  lemma RevokeFamilySim(t: RefreshTokens, u: RefreshTokens, access: AccessTokens, family: Id, reason: string, now: Time)
    requires RefreshSim(t, u, access)
    ensures RefreshSim(RevokeFamily(t, family, reason, now), RevokeFamily(u, family, reason, now), access)
  {
    var t', u' := RevokeFamily(t, family, reason, now), RevokeFamily(u, family, reason, now);
    forall h | h in t' ensures RowSim(t'[h], u'[h], access) { assert RowSim(t[h], u[h], access); }
  }

  lemma RevokeOfUserSim(t: RefreshTokens, u: RefreshTokens, access: AccessTokens, user: Id, reason: string, now: Time)
    requires RefreshSim(t, u, access)
    ensures RefreshSim(RevokeRefreshOfUser(t, user, reason, now), RevokeRefreshOfUser(u, user, reason, now), access)
  {
    var t', u' := RevokeRefreshOfUser(t, user, reason, now), RevokeRefreshOfUser(u, user, reason, now);
    forall h | h in t' ensures RowSim(t'[h], u'[h], access) { assert RowSim(t[h], u[h], access); }
  }

  /** Marking access tokens disturbs no link: the same ids stay stored. */
  lemma MarkAccessSim(t: RefreshTokens, u: RefreshTokens, access: AccessTokens, access': AccessTokens)
    requires RefreshSim(t, u, access)
    requires access'.Keys == access.Keys && forall h :: h in access ==> access'[h].id == access[h].id
    ensures RefreshSim(t, u, access')
  {
    forall h | h in t ensures RowSim(t[h], u[h], access') { assert RowSim(t[h], u[h], access); }
  }

  lemma RevokeAccessSim(t: AccessTokens, u: AccessTokens, id: Id, now: Time)
    requires AccessSim(t, u, now)
    ensures AccessSim(RevokeAccess(t, id), RevokeAccess(u, id), now)
  {
    var t', u' := RevokeAccess(t, id), RevokeAccess(u, id);
    forall h ensures AccessRowSim(t', u', now, h) { assert AccessRowSim(t, u, now, h); }
  }

  lemma RevokeAccessOfUserSim(t: AccessTokens, u: AccessTokens, user: Id, now: Time)
    requires AccessSim(t, u, now)
    ensures AccessSim(RevokeAccessOfUser(t, user), RevokeAccessOfUser(u, user), now)
  {
    var t', u' := RevokeAccessOfUser(t, user), RevokeAccessOfUser(u, user);
    forall h ensures AccessRowSim(t', u', now, h) { assert AccessRowSim(t, u, now, h); }
  }

  lemma RevokeAccessOfClientSim(t: AccessTokens, u: AccessTokens, client: Id, now: Time)
    requires AccessSim(t, u, now)
    ensures AccessSim(RevokeAccessOfClient(t, client), RevokeAccessOfClient(u, client), now)
  {
    var t', u' := RevokeAccessOfClient(t, client), RevokeAccessOfClient(u, client);
    forall h ensures AccessRowSim(t', u', now, h) { assert AccessRowSim(t, u, now, h); }
  }

  lemma UseCodeSim(t: Codes, u: Codes, id: Id, now: Time)
    requires CodesSim(t, u, now)
    ensures CodesSim(UseCode(t, id, now), UseCode(u, id, now), now)
  {
    var t', u' := UseCode(t, id, now), UseCode(u, id, now);
    forall c ensures CodeRowSim(t', u', now, c) { assert CodeRowSim(t, u, now, c); }
  }

  lemma RevokeCodeSim(t: Codes, u: Codes, id: Id, now: Time)
    requires CodesSim(t, u, now)
    ensures CodesSim(RevokeCode(t, id), RevokeCode(u, id), now)
  {
    var t', u' := RevokeCode(t, id), RevokeCode(u, id);
    forall c ensures CodeRowSim(t', u', now, c) { assert CodeRowSim(t, u, now, c); }
  }

  lemma DropCodesOfSim(t: Codes, u: Codes, provider: Id, now: Time)
    requires CodesSim(t, u, now)
    ensures CodesSim(DropCodesOf(t, provider), DropCodesOf(u, provider), now)
  {
    var t', u' := DropCodesOf(t, provider), DropCodesOf(u, provider);
    forall c ensures CodeRowSim(t', u', now, c) { assert CodeRowSim(t, u, now, c); }
  }

  lemma PurgeSim(t: RefreshTokens, u: RefreshTokens, access: AccessTokens, now: Time)
    requires RefreshSim(t, u, access)
    ensures RefreshSim(DropExpiredRefresh(t, now), DropExpiredRefresh(u, now), access)
  {
    var p := map h | h in t && !(t[h].expiresAt < now) :: t[h];
    var q := map h | h in u && !(u[h].expiresAt < now) :: u[h];
    forall h | h in t ensures t[h].id == u[h].id && t[h].expiresAt == u[h].expiresAt && t[h].previous == u[h].previous {
      assert RowSim(t[h], u[h], access);
    }
    assert p.Keys == q.Keys;
    forall id ensures RefreshStored(p, id) <==> RefreshStored(q, id) {
      if h :| h in p && p[h].id == id { assert q[h].id == id; }
      if h :| h in q && q[h].id == id { assert p[h].id == id; }
    }
    var t', u' := DropExpiredRefresh(t, now), DropExpiredRefresh(u, now);
    forall h | h in t' ensures RowSim(t'[h], u'[h], access) { assert RowSim(t[h], u[h], access); }
  }

  // ---------- Issuing tokens ----------

  /** Every link to an access token is to an id on record. */
  ghost predicate LinksKnown(w: World) {
    forall h :: h in w.refresh && w.refresh[h].access.Some? ==> w.refresh[h].access.value in w.ledger.ids
  }

  lemma InvLinksKnown(cfg: Config, w: World)
    requires Inv(cfg, w)
    ensures LinksKnown(w)
  {
    forall h | h in w.refresh && w.refresh[h].access.Some? ensures w.refresh[h].access.value in w.ledger.ids {
      assert RefreshRowOk(w.refresh, w.access, w.ledger, h);
      assert AccessOriginOk(cfg, w.ledger, w.ledger.refresh[h].access);
    }
  }

  /** What the simulation needs to know of the two states besides `Sim`. */
  ghost predicate Sound(w: World, v: World) {
    LinksKnown(v) && w.access.Keys <= v.ledger.access.Keys && v.access.Keys <= v.ledger.access.Keys
  }

  lemma InvSound(cfg: Config, w: World, v: World)
    requires Inv(cfg, w) && Inv(cfg, v) && w.ledger == v.ledger
    ensures Sound(w, v)
  {
    InvLinksKnown(cfg, v);
    forall h | h in w.access ensures h in v.ledger.access { assert AccessRowOk(w.access, w.ledger, h); }
    forall h | h in v.access ensures h in v.ledger.access { assert AccessRowOk(v.access, v.ledger, h); }
  }

  lemma SimRefresh(w: World, v: World, t: RefreshTokens, u: RefreshTokens)
    requires Sim(w, v) && RefreshSim(t, u, w.access)
    ensures Sim(w.(refresh := t), v.(refresh := u))
  {}

  lemma StoreAccessSim(w: World, v: World, hash: string, row: AccessToken, jwt: string, code: Option<string>)
    requires Sim(w, v) && LinksKnown(v) && hash !in w.access && hash !in v.access && row.id !in v.ledger.ids
    ensures Sim(StoreAccess(w, hash, row, jwt, code), StoreAccess(v, hash, row, jwt, code))
  {
    var access, access' := w.access[hash := row], v.access[hash := row];
    forall h ensures AccessRowSim(access, access', w.now, h) { assert AccessRowSim(w.access, v.access, w.now, h); }
    forall h | h in w.refresh ensures RowSim(w.refresh[h], v.refresh[h], access) {
      assert RowSim(w.refresh[h], v.refresh[h], w.access);
    }
  }

  lemma StoreRefreshSim(w: World, v: World, hash: string, row: RefreshToken, o: RefreshOrigin)
    requires Sim(w, v)
    ensures Sim(StoreRefresh(w, hash, row, o), StoreRefresh(v, hash, row, o))
  {
    var t, u := w.refresh[hash := row], v.refresh[hash := row];
    forall h | h in t ensures RowSim(t[h], u[h], w.access) {
      if h != hash { assert RowSim(w.refresh[h], v.refresh[h], w.access); }
    }
  }

  lemma FirstRefreshSim(cfg: Config, w: World, v: World, code: string, a: AuthorizationCode, jwt: string, d: Draws,
                        faults: Faults)
    requires Sim(w, v) && w.now == v.now
    ensures var o, p := IssueFirstRefresh(cfg, w, code, a, jwt, d, faults),
            IssueFirstRefresh(cfg, v, code, a, jwt, d, faults);
            o.response == p.response && Sim(o.world, p.world)
  {
    var granted := if a.scope.Some? then a.scope.value else "";
    var h, origin := cfg.sha256(d.token), RefreshOrigin(d.refreshId, d.family, 0, None, cfg.sha256(jwt), code);
    var row := FirstRefresh(cfg, w, a, granted, d);
    var o, p := IssueFirstRefresh(cfg, w, code, a, jwt, d, faults), IssueFirstRefresh(cfg, v, code, a, jwt, d, faults);
    if o.response == Tokens(jwt, a.scope, Some(d.token)) {
      StoreRefreshSim(w, v, h, row, origin);
      assert o.world == StoreRefresh(w, h, row, origin) && p.world == StoreRefresh(v, h, row, origin);
    } else {
      assert o.world == w && p.world == v;
    }
  }

  lemma IssueForCodeSim(cfg: Config, w: World, v: World, code: string, a: AuthorizationCode, d: Draws, faults: Faults)
    requires Sim(w, v) && w.now == v.now && Sound(w, v)
    requires d.accessId !in v.ledger.ids && FreshJwt(cfg, v, v.now, a.user, d)
    ensures var o, p := IssueForCode(cfg, w, code, a, d, faults), IssueForCode(cfg, v, code, a, d, faults);
            o.response == p.response && Sim(o.world, p.world)
  {
    if a.user in v.users {
      var jwt := GenerateAccessToken(cfg, a.user, v.users[a.user].email, v.now, d.nonce);
      var h, row := cfg.sha256(jwt), ExchangedAccess(cfg, v, a, d);
      assert row == ExchangedAccess(cfg, w, a, d);
      StoreAccessSim(w, v, h, row, jwt, Some(code));
      FirstRefreshSim(cfg, StoreAccess(w, h, row, jwt, Some(code)), StoreAccess(v, h, row, jwt, Some(code)), code, a,
                      jwt, d, faults);
    }
  }

  lemma RedeemSim(w: World, v: World, code: string, id: Id)
    requires Sim(w, v) && w.now == v.now
    ensures Sim(RedeemCode(w, code, id), RedeemCode(v, code, id))
  {
    UseCodeSim(w.codes, v.codes, id, w.now);
  }

  lemma ExchangeSim(cfg: Config, w: World, v: World, e: Event)
    requires Sound(w, v) && Sim(w, v) && w.now == v.now == e.now
    requires e.Exchange? && Admissible(cfg, v, e)
    ensures var o := ExchangeCode(cfg, w, e.code, e.client, e.secret, e.redirectUri, e.draws, e.faults);
            var p := ExchangeCode(cfg, v, e.code, e.client, e.secret, e.redirectUri, e.draws, e.faults);
            TokenEndpoint(o.response) == TokenEndpoint(p.response) && Sim(o.world, p.world)
  {
    assert CodeRowSim(w.codes, v.codes, w.now, e.code);
    if e.code in w.codes {
      var a := v.codes[e.code];
      var w1, v1 := RedeemCode(w, e.code, a.id), RedeemCode(v, e.code, a.id);
      RedeemSim(w, v, e.code, a.id);
      IssueForCodeSim(cfg, w1, v1, e.code, a, e.draws, e.faults);
    } else if e.code in v.codes {
      assert CodeError(v.codes[e.code], v.now, e.client, e.redirectUri).Some?;
    }
  }

  lemma NextRefreshSim(cfg: Config, w: World, v: World, hash: string, r: RefreshToken, s: RefreshToken, jwt: string,
                       d: Draws, faults: Faults)
    requires Sim(w, v) && w.now == v.now && r == s.(access := r.access)
    ensures var o, p := IssueNextRefresh(cfg, w, hash, r, jwt, d, faults),
            IssueNextRefresh(cfg, v, hash, s, jwt, d, faults);
            o.response == p.response && Sim(o.world, p.world)
  {
    var origin := RefreshOrigin(d.refreshId, r.family, GenerationOf(w.ledger, hash) + 1, Some(hash),
                                cfg.sha256(jwt), CodeOf(w.ledger, hash));
    StoreRefreshSim(w, v, cfg.sha256(d.token), NextRefresh(cfg, w, r, d), origin);
  }

  lemma SuccessorSim(cfg: Config, w: World, v: World, hash: string, r: RefreshToken, s: RefreshToken, d: Draws,
                     faults: Faults)
    requires Sim(w, v) && w.now == v.now && r == s.(access := r.access) && Sound(w, v)
    requires d.accessId !in v.ledger.ids && FreshJwt(cfg, v, v.now, s.user, d)
    ensures var o, p := IssueSuccessor(cfg, w, hash, r, d, faults), IssueSuccessor(cfg, v, hash, s, d, faults);
            o.response == p.response && Sim(o.world, p.world)
  {
    if s.user in v.users {
      var jwt := GenerateAccessToken(cfg, s.user, v.users[s.user].email, v.now, d.nonce);
      var h, row, code := cfg.sha256(jwt), RotatedAccess(cfg, v, s, d), Some(CodeOf(v.ledger, hash));
      assert row == RotatedAccess(cfg, w, r, d);
      StoreAccessSim(w, v, h, row, jwt, code);
      NextRefreshSim(cfg, StoreAccess(w, h, row, jwt, code), StoreAccess(v, h, row, jwt, code), hash, r, s, jwt, d,
                     faults);
    }
  }

  lemma ReplaceSim(cfg: Config, w: World, v: World, h: string, d: Draws, faults: Faults)
    requires Sound(w, v) && Sim(w, v) && w.now == v.now && h in v.refresh
    requires d.accessId !in v.ledger.ids && FreshJwt(cfg, v, v.now, v.refresh[h].user, d)
    ensures SameOutcome(ReplaceToken(cfg, w, h, w.refresh[h], d, faults),
                        ReplaceToken(cfg, v, h, v.refresh[h], d, faults))
  {
    var r, s := w.refresh[h], v.refresh[h];
    assert RowSim(r, s, w.access);
    var t, u := UseRefresh(w.refresh, r.id, w.now), UseRefresh(v.refresh, s.id, v.now);
    UseRefreshSim(w.refresh, v.refresh, w.access, r.id, w.now);
    SimRefresh(w, v, t, u);
    UseKeepsLinks(v, s.id);
    SuccessorSim(cfg, w.(refresh := t), v.(refresh := u), h, r, s, d, faults);
  }

  /** The two runs give related outcomes, with the same response. */
  ghost predicate SameOutcome(o: Outcome, p: Outcome) {
    o.response == p.response && Sim(o.world, p.world)
  }

  lemma ReplaySim(w: World, v: World, f: Id)
    requires Sim(w, v) && w.now == v.now
    ensures Sim(w.(refresh := RevokeFamily(w.refresh, f, "replay_detected", w.now)),
                v.(refresh := RevokeFamily(v.refresh, f, "replay_detected", v.now)))
  {
    RevokeFamilySim(w.refresh, v.refresh, w.access, f, "replay_detected", w.now);
    SimRefresh(w, v, RevokeFamily(w.refresh, f, "replay_detected", w.now),
               RevokeFamily(v.refresh, f, "replay_detected", w.now));
  }

  lemma RotateDeadSim(cfg: Config, w: World, v: World, e: Event)
    requires Sim(w, v) && w.now == v.now == e.now && e.Rotate?
    requires !Live(w, cfg.sha256(e.token))
    ensures SameOutcome(RotateToken(cfg, w, e.token, e.clientId, e.secret, e.draws, e.faults),
                        RotateToken(cfg, v, e.token, e.clientId, e.secret, e.draws, e.faults))
  {
    var h := cfg.sha256(e.token);
    if h in w.refresh {
      assert RowSim(w.refresh[h], v.refresh[h], w.access);
      ReplaySim(w, v, w.refresh[h].family);
    }
  }

  lemma RotateLiveSim(cfg: Config, w: World, v: World, e: Event)
    requires Sound(w, v) && Sim(w, v) && w.now == v.now == e.now && e.Rotate? && Admissible(cfg, v, e)
    requires Live(w, cfg.sha256(e.token))
    ensures SameOutcome(RotateToken(cfg, w, e.token, e.clientId, e.secret, e.draws, e.faults),
                        RotateToken(cfg, v, e.token, e.clientId, e.secret, e.draws, e.faults))
  {
    var h := cfg.sha256(e.token);
    assert RowSim(w.refresh[h], v.refresh[h], w.access);
    var lookupError := LookupError(cfg, w, h, e.clientId, e.secret, e.faults);
    var tokenError := TokenError(w.refresh[h], w.now, e.clientId, e.faults);
    assert lookupError == LookupError(cfg, v, h, e.clientId, e.secret, e.faults);
    assert tokenError == TokenError(v.refresh[h], v.now, e.clientId, e.faults);
    if lookupError.None? && tokenError.None? {
      ReplaceSim(cfg, w, v, h, e.draws, e.faults);
    }
  }

  lemma UseKeepsLinks(v: World, id: Id)
    requires LinksKnown(v)
    ensures LinksKnown(v.(refresh := UseRefresh(v.refresh, id, v.now)))
  {}

  // ---------- The other calls ----------

  lemma SimAccess(w: World, v: World, t: AccessTokens, u: AccessTokens)
    requires Sim(w, v) && AccessSim(t, u, w.now)
    requires t.Keys == w.access.Keys && forall h :: h in t ==> t[h].id == w.access[h].id
    ensures Sim(w.(access := t), v.(access := u))
  {
    MarkAccessSim(w.refresh, v.refresh, w.access, t);
  }

  lemma RevokeAccessByIdSim(w: World, v: World, id: Id)
    requires Sim(w, v)
    ensures Sim(w.(access := RevokeAccess(w.access, id)), v.(access := RevokeAccess(v.access, id)))
    ensures !AccessStored(w.access, id) ==> Sim(w, v.(access := RevokeAccess(v.access, id)))
  {
    RevokeAccessSim(w.access, v.access, id, w.now);
    SimAccess(w, v, RevokeAccess(w.access, id), RevokeAccess(v.access, id));
    if !AccessStored(w.access, id) {
      assert RevokeAccess(w.access, id) == w.access;
    }
  }

  lemma RevokeLinkedSim(w: World, v: World, h: string, faults: Faults)
    requires Sim(w, v) && w.now == v.now && h in w.refresh
    ensures Sim(RevokeRefreshAndLinked(w, w.refresh[h], faults).world,
                RevokeRefreshAndLinked(v, v.refresh[h], faults).world)
  {
    var r, s := w.refresh[h], v.refresh[h];
    assert RowSim(r, s, w.access);
    var t, u := RevokeRefresh(w.refresh, r.id, "client_revoked", w.now),
        RevokeRefresh(v.refresh, s.id, "client_revoked", v.now);
    RevokeRefreshSim(w.refresh, v.refresh, w.access, r.id, "client_revoked", w.now);
    SimRefresh(w, v, t, u);
    var w1, v1 := w.(refresh := t), v.(refresh := u);
    if s.access.Some? { RevokeAccessByIdSim(w1, v1, s.access.value); }
    var o, p := RevokeRefreshAndLinked(w, r, faults), RevokeRefreshAndLinked(v, s, faults);
    if r.revoked || RevokeRefreshToken in faults {
      assert o.world == w && p.world == v;
    } else if GetAccessTokenByID in faults || RevokeAccessToken in faults {
      assert o.world == w1 && p.world == v1;
    } else if s.access.None? {
      assert o.world == w1 && p.world == v1;
    } else if r.access.None? {
      assert o.world == w1 && p.world == v1.(access := RevokeAccess(v.access, s.access.value));
    } else {
      assert o.world == w1.(access := RevokeAccess(w.access, s.access.value));
      assert p.world == v1.(access := RevokeAccess(v.access, s.access.value));
    }
  }

  lemma RevokeAccessRecordSim(w: World, v: World, h: string, faults: Faults)
    requires Sim(w, v) && h in v.access
    ensures h in w.access ==> Sim(RevokeAccessRecord(w, w.access[h], faults).world,
                                  RevokeAccessRecord(v, v.access[h], faults).world)
    ensures h !in w.access && !AccessStored(w.access, v.access[h].id)
            ==> Sim(w, RevokeAccessRecord(v, v.access[h], faults).world)
  {
    assert AccessRowSim(w.access, v.access, w.now, h);
    RevokeAccessByIdSim(w, v, v.access[h].id);
  }

  /** Access token ids are unique, so a deleted row's id is stored under no other hash. */
  lemma DeletedIdIsGone(cfg: Config, w: World, v: World, h: string)
    requires Inv(cfg, w) && Inv(cfg, v) && w.ledger == v.ledger && h in v.access && h !in w.access
    ensures !AccessStored(w.access, v.access[h].id)
  {
    assert AccessRowOk(v.access, v.ledger, h);
    forall k | k in w.access ensures w.access[k].id != v.access[h].id {
      assert AccessRowOk(w.access, w.ledger, k);
      assert !SameAccess(v.ledger.access[k], v.ledger.access[h]);
    }
  }

  lemma RevokeSim(cfg: Config, w: World, v: World, e: Event)
    requires Sim(w, v) && w.now == v.now && e.Revoke?
    requires cfg.sha256(e.token) in v.access && cfg.sha256(e.token) !in w.access
             ==> !AccessStored(w.access, v.access[cfg.sha256(e.token)].id)
    ensures Sim(RevokeAnyToken(cfg, w, e.token, e.hint, e.faults).world,
                RevokeAnyToken(cfg, v, e.token, e.hint, e.faults).world)
  {
    var h := cfg.sha256(e.token);
    if e.hint != "access_token" && h in w.refresh {
      RevokeLinkedSim(w, v, h, e.faults);
    } else {
      assert AccessRowSim(w.access, v.access, w.now, h);
      if h in v.access { RevokeAccessRecordSim(w, v, h, e.faults); }
    }
  }

  /** The auth middleware decides alike: a deleted row is expired, and so is its JWT. */
  lemma AdmitSim(cfg: Config, w: World, v: World, token: string, faults: Faults)
    requires Inv(cfg, v) && Sim(w, v) && w.now == v.now && NoCollision(cfg, v.ledger, token)
    ensures Admit(cfg, w, token, faults) == Admit(cfg, v, token, faults)
  {
    var h := cfg.sha256(token);
    assert AccessRowSim(w.access, v.access, w.now, h);
    if h in v.access && h !in w.access {
      assert AccessRowOk(v.access, v.ledger, h);
      assert AccessOriginOk(cfg, v.ledger, h);
    }
  }

  /** The revocation endpoint knows the same callers. */
  lemma AuthenticatesSim(cfg: Config, w: World, v: World, caller: Caller, faults: Faults)
    requires Inv(cfg, v) && Sim(w, v) && w.now == v.now && (caller.Bearer? ==> NoCollision(cfg, v.ledger, caller.jwt))
    ensures Authenticates(cfg, w, caller, faults) == Authenticates(cfg, v, caller, faults)
  {
    if caller.Bearer? { AdmitSim(cfg, w, v, caller.jwt, faults); }
  }

  lemma LogoutAccessSim(w: World, v: World, h: string, faults: Faults)
    requires Sim(w, v) && (h in v.access && h !in w.access ==> !AccessStored(w.access, v.access[h].id))
    ensures Sim(LogoutAccess(w, h, faults), LogoutAccess(v, h, faults))
  {
    assert AccessRowSim(w.access, v.access, w.now, h);
    if h in v.access { RevokeAccessByIdSim(w, v, v.access[h].id); }
  }

  lemma LogoutRefreshSim(w: World, v: World, user: Id, faults: Faults)
    requires Sim(w, v) && w.now == v.now
    ensures Sim(LogoutRefresh(w, user, faults), LogoutRefresh(v, user, faults))
  {
    RevokeOfUserSim(w.refresh, v.refresh, w.access, user, "logout", w.now);
    SimRefresh(w, v, RevokeRefreshOfUser(w.refresh, user, "logout", w.now),
               RevokeRefreshOfUser(v.refresh, user, "logout", v.now));
  }

  lemma LogoutSim(cfg: Config, w: World, v: World, e: Event)
    requires Sim(w, v) && w.now == v.now && e.Logout?
    requires Admit(cfg, w, e.token, e.faults) == Admit(cfg, v, e.token, e.faults)
    requires cfg.sha256(e.token) in v.access && cfg.sha256(e.token) !in w.access
             ==> !AccessStored(w.access, v.access[cfg.sha256(e.token)].id)
    ensures Sim(LogoutUser(cfg, w, e.token, e.faults).world, LogoutUser(cfg, v, e.token, e.faults).world)
  {
    var admitted, h := Admit(cfg, w, e.token, e.faults), cfg.sha256(e.token);
    if admitted.Admitted? {
      LogoutAccessSim(w, v, h, e.faults);
      LogoutRefreshSim(LogoutAccess(w, h, e.faults), LogoutAccess(v, h, e.faults), admitted.user, e.faults);
    }
  }

  lemma StoreLoginSim(cfg: Config, w: World, v: World, user: Id, jwt: string, d: Draws, faults: Faults)
    requires Sim(w, v) && w.now == v.now && LinksKnown(v) && d.accessId !in v.ledger.ids
    requires cfg.sha256(jwt) !in w.access && cfg.sha256(jwt) !in v.access
    ensures Sim(StoreLoginToken(cfg, w, user, jwt, d, faults).world,
                StoreLoginToken(cfg, v, user, jwt, d, faults).world)
  {
    StoreAccessSim(w, v, cfg.sha256(jwt), LoginAccess(cfg, w, user, d), jwt, None);
  }

  lemma LoginSim(cfg: Config, w: World, v: World, e: Event)
    requires Sound(w, v) && Sim(w, v) && w.now == v.now == e.now && e.Login? && Admissible(cfg, v, e)
    ensures Sim(LoginUser(cfg, w, e.user, e.draws, e.faults).world, LoginUser(cfg, v, e.user, e.draws, e.faults).world)
  {
    if e.user in v.users {
      var t, u := RevokeAccessOfUser(w.access, e.user), RevokeAccessOfUser(v.access, e.user);
      RevokeAccessOfUserSim(w.access, v.access, e.user, w.now);
      SimAccess(w, v, t, u);
      var jwt := GenerateAccessToken(cfg, e.user, v.users[e.user].email, v.now, e.draws.nonce);
      StoreLoginSim(cfg, w.(access := t), v.(access := u), e.user, jwt, e.draws, e.faults);
    }
  }

  lemma EndSessionsSim(cfg: Config, w: World, v: World, user: Id, email: string, d: Draws, faults: Faults)
    requires Sound(w, v) && Sim(w, v) && w.now == v.now && d.accessId !in v.ledger.ids
    requires cfg.sha256(GenerateAccessToken(cfg, user, email, v.now, d.nonce)) !in v.ledger.access
    ensures Sim(EndSessions(cfg, w, user, email, d, faults).world, EndSessions(cfg, v, user, email, d, faults).world)
  {
    var jwt := GenerateAccessToken(cfg, user, email, v.now, d.nonce);
    if RevokeRefreshTokensByUser in faults {
      StoreLoginSim(cfg, w, v, user, jwt, d, faults);
    } else {
      var t := RevokeRefreshOfUser(w.refresh, user, "password_change", w.now);
      var u := RevokeRefreshOfUser(v.refresh, user, "password_change", v.now);
      RevokeOfUserSim(w.refresh, v.refresh, w.access, user, "password_change", w.now);
      SimRefresh(w, v, t, u);
      RevokeKeepsLinks(v, user);
      StoreLoginSim(cfg, w.(refresh := t), v.(refresh := u), user, jwt, d, faults);
    }
  }

  lemma RevokeKeepsLinks(v: World, user: Id)
    requires LinksKnown(v)
    ensures LinksKnown(v.(refresh := RevokeRefreshOfUser(v.refresh, user, "password_change", v.now)))
  {}

  lemma PasswordSim(cfg: Config, w: World, v: World, e: Event)
    requires Sound(w, v) && Sim(w, v) && w.now == v.now == e.now && e.ChangePassword? && Admissible(cfg, v, e)
    ensures Sim(ChangeUserPassword(cfg, w, e.user, e.policyOk, e.newHash, e.draws, e.faults).world,
                ChangeUserPassword(cfg, v, e.user, e.policyOk, e.newHash, e.draws, e.faults).world)
  {
    if e.user in v.users {
      var u1 := PasswordSet(v.users, e.user, e.newHash);
      var u2 := FlagCleared(u1, e.user);
      EndSessionsSim(cfg, w.(users := u2), v.(users := u2), e.user, v.users[e.user].email, e.draws, e.faults);
    }
  }

  lemma StoreCodeSim(w: World, v: World, code: string, row: AuthorizationCode)
    requires Sim(w, v) && code !in w.codes && code !in v.codes
    ensures Sim(StoreCode(w, code, row), StoreCode(v, code, row))
  {
    var t, u := w.codes[code := row], v.codes[code := row];
    forall c ensures CodeRowSim(t, u, w.now, c) { assert CodeRowSim(w.codes, v.codes, w.now, c); }
  }

  lemma IssueCodeSim(w: World, v: World, client: Id, provider: Id, redirectUri: string, scope: Option<string>, user: Id,
                     users: map<Id, User>, codeId: Id, code: string, faults: Faults)
    requires Sim(w, v) && w.now == v.now && code !in w.codes && code !in v.codes
    ensures Sim(IssueCodeTo(w, client, provider, redirectUri, scope, user, users, codeId, code, faults).world,
                IssueCodeTo(v, client, provider, redirectUri, scope, user, users, codeId, code, faults).world)
  {
    var row := AuthorizationCode(codeId, client, user, provider, redirectUri, scope, w.now + CODE_LIFETIME, None,
                                 false);
    var w1, v1 := w.(users := users), v.(users := users);
    assert Sim(w1, v1);
    StoreCodeSim(w1, v1, code, row);
  }

  lemma CallbackSim(w: World, v: World, e: Event, redirectUri: string, scope: Option<string>)
    requires Sim(w, v) && w.now == v.now && e.WebCallback? && e.code !in w.codes && e.code !in v.codes
    ensures Sim(HandleProviderCallback(w, e.client, e.provider, redirectUri, scope, e.info, e.userId, e.codeId, e.code,
                                       e.faults).world,
                HandleProviderCallback(v, e.client, e.provider, redirectUri, scope, e.info, e.userId, e.codeId, e.code,
                                       e.faults).world)
  {
    if e.provider.Some? && e.info.Some? {
      var u := UpsertUser(v, e.provider.value.name, e.info.value, e.userId, e.faults);
      assert u == UpsertUser(w, e.provider.value.name, e.info.value, e.userId, e.faults);
      if u.Some? {
        IssueCodeSim(w, v, e.client, e.provider.value.id, redirectUri, scope, u.value.0, u.value.1, e.codeId, e.code,
                     e.faults);
      }
    }
  }

  lemma FinishSim(cfg: Config, w: World, v: World, e: Event)
    requires CodesOk(w.codes, w.ledger) && CodesOk(v.codes, v.ledger)
    requires Sim(w, v) && w.now == v.now && e.WebCallback? && e.code !in v.ledger.codes
    ensures Sim(FinishWebLogin(cfg, w, e.client, e.providerName, e.provider, e.state, e.cookie, e.info, e.userId,
                               e.codeId, e.code, e.faults).world,
                FinishWebLogin(cfg, v, e.client, e.providerName, e.provider, e.state, e.cookie, e.info, e.userId,
                               e.codeId, e.code, e.faults).world)
  {
    var decoded := S.DecodeSession(cfg.cookies, e.cookie);
    forall c | c in w.codes ensures c in w.ledger.codes { assert CodeRowOk(w.codes, w.ledger, c); }
    forall c | c in v.codes ensures c in v.ledger.codes { assert CodeRowOk(v.codes, v.ledger, c); }
    if decoded.Accepted? { CallbackSim(w, v, e, decoded.session.redirectUri, decoded.session.scope); }
  }

  lemma StartSim(cfg: Config, w: World, v: World, e: Event)
    requires Sim(w, v) && e.WebLogin?
    ensures Sim(StartWebLogin(cfg, w, e.client, e.providerName, e.provider, e.redirectUri, e.scope, e.state,
                              e.faults).world,
                StartWebLogin(cfg, v, e.client, e.providerName, e.provider, e.redirectUri, e.scope, e.state,
                              e.faults).world)
  {}

  lemma WebSim(cfg: Config, w: World, v: World, e: Event)
    requires CodesOk(w.codes, w.ledger) && CodesOk(v.codes, v.ledger)
    requires Sim(w, v) && w.now == v.now == e.now && (e.WebLogin? || e.WebCallback?) && Admissible(cfg, v, e)
    ensures Sim(Step(cfg, w, e).world, Step(cfg, v, e).world)
  {
    if e.WebLogin? { StartSim(cfg, w, v, e); } else { FinishSim(cfg, w, v, e); }
  }

  predicate Administrative(e: Event) {
    || e.AdminRevokeRefresh? || e.AdminRevokeCode? || e.AdminRevokeAccess? || e.RevokeUserSessions?
    || e.RevokeClientSessions? || e.PurgeExpiredRefreshTokens? || e.DeleteProvider? || e.ChangeClient? || e.ChangeUser?
  }

  lemma SimCodes(w: World, v: World, t: Codes, u: Codes)
    requires Sim(w, v) && CodesSim(t, u, w.now)
    ensures Sim(w.(codes := t), v.(codes := u))
  {}

  lemma AdminRevokeAccessSim(cfg: Config, w: World, v: World, e: Event)
    requires Sim(w, v) && w.now == v.now == e.now && e.AdminRevokeAccess?
    ensures Sim(Step(cfg, w, e).world, Step(cfg, v, e).world)
  {
    RevokeAccessByIdSim(w, v, e.id);
    if AccessStored(w.access, e.id) {
      var h :| h in w.access && w.access[h].id == e.id;
      assert AccessRowSim(w.access, v.access, w.now, h);
      assert v.access[h].id == e.id;
    }
  }

  lemma UserSessionsSim(cfg: Config, w: World, v: World, e: Event)
    requires Sim(w, v) && w.now == v.now == e.now && e.RevokeUserSessions?
    ensures Sim(Step(cfg, w, e).world, Step(cfg, v, e).world)
  {
    RevokeAccessOfUserSim(w.access, v.access, e.user, w.now);
    SimAccess(w, v, RevokeAccessOfUser(w.access, e.user), RevokeAccessOfUser(v.access, e.user));
  }

  lemma ClientSessionsSim(cfg: Config, w: World, v: World, e: Event)
    requires Sim(w, v) && w.now == v.now == e.now && e.RevokeClientSessions?
    ensures Sim(Step(cfg, w, e).world, Step(cfg, v, e).world)
  {
    RevokeAccessOfClientSim(w.access, v.access, e.client, w.now);
    SimAccess(w, v, RevokeAccessOfClient(w.access, e.client), RevokeAccessOfClient(v.access, e.client));
  }

  lemma RefreshEventSim(cfg: Config, w: World, v: World, e: Event)
    requires Sim(w, v) && w.now == v.now == e.now && (e.AdminRevokeRefresh? || e.PurgeExpiredRefreshTokens?)
    ensures Sim(Step(cfg, w, e).world, Step(cfg, v, e).world)
  {
    match e
    case AdminRevokeRefresh(_, user, _) =>
      RevokeOfUserSim(w.refresh, v.refresh, w.access, user, "admin_revoked", w.now);
      SimRefresh(w, v, RevokeRefreshOfUser(w.refresh, user, "admin_revoked", w.now),
                 RevokeRefreshOfUser(v.refresh, user, "admin_revoked", v.now));
    case PurgeExpiredRefreshTokens(_, _) =>
      PurgeSim(w.refresh, v.refresh, w.access, w.now);
      SimRefresh(w, v, DropExpiredRefresh(w.refresh, w.now), DropExpiredRefresh(v.refresh, v.now));
  }

  lemma AdminRevokeCodeSim(cfg: Config, w: World, v: World, e: Event)
    requires Sim(w, v) && w.now == v.now == e.now && e.AdminRevokeCode?
    ensures Sim(Step(cfg, w, e).world, Step(cfg, v, e).world)
  {
    RevokeCodeSim(w.codes, v.codes, e.id, w.now);
    SimCodes(w, v, RevokeCode(w.codes, e.id), RevokeCode(v.codes, e.id));
    if CodeStored(w.codes, e.id) {
      var c :| c in w.codes && w.codes[c].id == e.id;
      assert CodeRowSim(w.codes, v.codes, w.now, c);
      assert v.codes[c].id == e.id;
    } else {
      assert RevokeCode(w.codes, e.id) == w.codes;
    }
  }

  lemma DeleteProviderSim(cfg: Config, w: World, v: World, e: Event)
    requires Sim(w, v) && w.now == v.now == e.now && e.DeleteProvider?
    ensures Sim(Step(cfg, w, e).world, Step(cfg, v, e).world)
  {
    DropCodesOfSim(w.codes, v.codes, e.providerId, w.now);
    SimCodes(w, v, DropCodesOf(w.codes, e.providerId), DropCodesOf(v.codes, e.providerId));
  }

  lemma ChangeClientSim(cfg: Config, w: World, v: World, e: Event)
    requires Sim(w, v) && w.now == v.now == e.now && e.ChangeClient?
    ensures Sim(Step(cfg, w, e).world, Step(cfg, v, e).world)
  {
    assert Step(cfg, w, e).world == w.(clients := w.clients[e.id := e.row]);
    assert Step(cfg, v, e).world == v.(clients := v.clients[e.id := e.row]);
  }

  lemma ChangeUserSim(cfg: Config, w: World, v: World, e: Event)
    requires Sim(w, v) && w.now == v.now == e.now && e.ChangeUser?
    ensures Sim(Step(cfg, w, e).world, Step(cfg, v, e).world)
  {
    assert Step(cfg, w, e).world == w.(users := w.users[e.id := e.account]);
    assert Step(cfg, v, e).world == v.(users := v.users[e.id := e.account]);
  }

  lemma AdministrativeSim(cfg: Config, w: World, v: World, e: Event)
    requires Sim(w, v) && w.now == v.now == e.now && Administrative(e)
    ensures Sim(Step(cfg, w, e).world, Step(cfg, v, e).world)
  {
    if e.AdminRevokeAccess? { AdminRevokeAccessSim(cfg, w, v, e); }
    else if e.RevokeUserSessions? { UserSessionsSim(cfg, w, v, e); }
    else if e.RevokeClientSessions? { ClientSessionsSim(cfg, w, v, e); }
    else if e.AdminRevokeRefresh? || e.PurgeExpiredRefreshTokens? { RefreshEventSim(cfg, w, v, e); }
    else if e.AdminRevokeCode? { AdminRevokeCodeSim(cfg, w, v, e); }
    else if e.DeleteProvider? { DeleteProviderSim(cfg, w, v, e); }
    else if e.ChangeClient? { ChangeClientSim(cfg, w, v, e); }
    else { ChangeUserSim(cfg, w, v, e); }
  }

  // ---------- Every event ----------

  predicate IsCleanup(e: Event) {
    e.CleanupExpiredCodes? || e.CleanupExpiredTokens?
  }

  ghost predicate CollisionFree(cfg: Config, v: World, e: Event) {
    && (e.Request? || e.Logout? ==> NoCollision(cfg, v.ledger, e.token))
    && (e.Revoke? && e.caller.Bearer? ==> NoCollision(cfg, v.ledger, e.caller.jwt))
  }

  lemma TokenCallSim(cfg: Config, w: World, v: World, e: Event)
    requires Inv(cfg, w) && Inv(cfg, v) && Sim(w, v) && w.now == v.now == e.now && Admissible(cfg, v, e)
    requires CollisionFree(cfg, v, e) && (e.Revoke? || e.Logout? || e.Request?)
    ensures Sim(Step(cfg, w, e).world, Step(cfg, v, e).world)
    ensures SameView(e, Step(cfg, w, e).response, Step(cfg, v, e).response)
  {
    var h := cfg.sha256(e.token);
    if h in v.access && h !in w.access { DeletedIdIsGone(cfg, w, v, h); }
    if e.Revoke? {
      AuthenticatesSim(cfg, w, v, e.caller, e.faults);
      RevokeSim(cfg, w, v, e);
    } else {
      AdmitSim(cfg, w, v, e.token, e.faults);
      if e.Logout? { LogoutSim(cfg, w, v, e); }
    }
  }

  lemma StepSimNow(cfg: Config, w: World, v: World, e: Event)
    requires Inv(cfg, w) && Inv(cfg, v) && Sim(w, v) && w.now == v.now == e.now && Admissible(cfg, v, e)
    requires !IsCleanup(e) && CollisionFree(cfg, v, e)
    ensures Sim(Step(cfg, w, e).world, Step(cfg, v, e).world)
    ensures SameView(e, Step(cfg, w, e).response, Step(cfg, v, e).response)
  {
    if Administrative(e) { AdministrativeSim(cfg, w, v, e); }
    else if e.Revoke? || e.Logout? || e.Request? { TokenCallSim(cfg, w, v, e); }
    else if e.WebLogin? || e.WebCallback? { WebSim(cfg, w, v, e); }
    else {
      InvSound(cfg, w, v);
      IssuingSim(cfg, w, v, e);
    }
  }

  lemma IssuingSim(cfg: Config, w: World, v: World, e: Event)
    requires Sound(w, v) && Sim(w, v) && w.now == v.now == e.now && Admissible(cfg, v, e)
    requires e.Exchange? || e.Rotate? || e.Login? || e.ChangePassword?
    ensures Sim(Step(cfg, w, e).world, Step(cfg, v, e).world)
    ensures SameView(e, Step(cfg, w, e).response, Step(cfg, v, e).response)
  {
    if e.Exchange? { ExchangeSim(cfg, w, v, e); }
    else if e.Rotate? {
      if Live(w, cfg.sha256(e.token)) { RotateLiveSim(cfg, w, v, e); } else { RotateDeadSim(cfg, w, v, e); }
    }
    else if e.Login? { LoginSim(cfg, w, v, e); }
    else { PasswordSim(cfg, w, v, e); }
  }

  lemma ClockSim(w: World, v: World, now: Time)
    requires Sim(w, v) && w.now <= now
    ensures Sim(w.(now := now), v.(now := now))
  {
    LaterSim(w, v, now);
  }

  /** What has expired stays expired. */
  lemma LaterSim(w: World, v: World, now: Time)
    requires Sim(w, v) && w.now <= now
    ensures Sim(w.(now := now), v)
    ensures CodesSim(w.codes, v.codes, now) && AccessSim(w.access, v.access, now)
  {
    forall c ensures CodeRowSim(w.codes, v.codes, now, c) { assert CodeRowSim(w.codes, v.codes, w.now, c); }
    forall h ensures AccessRowSim(w.access, v.access, now, h) { assert AccessRowSim(w.access, v.access, w.now, h); }
  }

  /** An event that happens in both runs keeps them related and looks the same from outside. */
  lemma StepSim(cfg: Config, w: World, v: World, e: Event, r: Response, s: Response, w': World, v': World)
    requires Inv(cfg, w) && Inv(cfg, v) && Sim(w, v) && !IsCleanup(e) && CollisionFree(cfg, v, e)
    requires Transition(cfg, w, e, r, w') && Transition(cfg, v, e, s, v')
    ensures Sim(w', v') && SameView(e, r, s)
  {
    ClockFirst(cfg, w, e);
    ClockFirst(cfg, v, e);
    ClockSim(w, v, e.now);
    ClockInv(cfg, w, e.now);
    ClockInv(cfg, v, e.now);
    StepSimNow(cfg, w.(now := e.now), v.(now := e.now), e);
  }

  lemma CodesCleanupSim(w: World, v: World)
    requires Sim(w, v)
    ensures Sim(w.(codes := DropExpiredCodes(w.codes, w.now)), v)
  {
    var t := DropExpiredCodes(w.codes, w.now);
    forall c ensures CodeRowSim(t, v.codes, w.now, c) { assert CodeRowSim(w.codes, v.codes, w.now, c); }
  }

  lemma AccessCleanupSim(w: World, v: World)
    requires Sim(w, v)
    ensures Sim(CleanAccess(w), v)
  {
    var c := CleanAccess(w);
    forall h ensures AccessRowSim(c.access, v.access, w.now, h) { assert AccessRowSim(w.access, v.access, w.now, h); }
    forall h | h in c.refresh ensures RowSim(c.refresh[h], v.refresh[h], c.access) {
      assert RowSim(w.refresh[h], v.refresh[h], w.access);
      if w.refresh[h].access.None? && v.refresh[h].access.Some? {
        forall k | k in c.access ensures c.access[k].id != v.refresh[h].access.value { assert k in w.access; }
      }
    }
  }

  /** A cleanup, which happens in one run only, keeps them related. */
  lemma CleanupSim(cfg: Config, w: World, v: World, e: Event, r: Response, w': World)
    requires Sim(w, v) && IsCleanup(e) && Transition(cfg, w, e, r, w')
    ensures Sim(w', v)
  {
    var u := w.(now := e.now);
    LaterSim(w, v, e.now);
    CodesCleanupSim(u, v);
    AccessCleanupSim(u, v);
  }

  // ---------- Whole runs ----------

  /** How many of the first `i` events are not cleanups. */
  function Position(es: seq<Event>, i: nat): (n: nat)
    requires i <= |es|
    ensures n <= i
  {
    if i == 0 then 0 else Position(es, i - 1) + if IsCleanup(es[i - 1]) then 0 else 1
  }

  /** `fs` is `es` without its cleanups. */
  ghost predicate Erases(es: seq<Event>, fs: seq<Event>) {
    && |fs| == Position(es, |es|)
    && (forall i {:trigger Position(es, i)} ::
          0 <= i < |es| && !IsCleanup(es[i]) ==> Position(es, i) < |fs| && fs[Position(es, i)] == es[i])
  }

  lemma {:induction false} PositionMonotone(es: seq<Event>, i: nat, j: nat)
    requires i <= j <= |es|
    ensures Position(es, i) <= Position(es, j)
  {
    if i == j {
    } else {
      PositionMonotone(es, i, j - 1);
    }
  }

  lemma SimAdvances(cfg: Config, run: History, bare: History, i: nat)
    requires Run(cfg, run) && Run(cfg, bare) && Erases(run.events, bare.events) && i < |run.events|
    requires forall k :: 0 <= k < |bare.events| ==> CollisionFree(cfg, bare.worlds[k], bare.events[k])
    requires Position(run.events, i) < |bare.worlds| && Sim(run.worlds[i], bare.worlds[Position(run.events, i)])
    ensures var n := Position(run.events, i);
            if IsCleanup(run.events[i]) then Sim(run.worlds[i + 1], bare.worlds[n])
            else
              && n < |bare.events| && Sim(run.worlds[i + 1], bare.worlds[n + 1])
              && SameView(run.events[i], run.replies[i], bare.replies[n])
  {
    var n := Position(run.events, i);
    assert Proceeds(cfg, run, i);
    if IsCleanup(run.events[i]) {
      CleanupSim(cfg, run.worlds[i], bare.worlds[n], run.events[i], run.replies[i], run.worlds[i + 1]);
    } else {
      assert Proceeds(cfg, bare, n);
      RunInv(cfg, run, i);
      RunInv(cfg, bare, n);
      StepSim(cfg, run.worlds[i], bare.worlds[n], run.events[i], run.replies[i], bare.replies[n], run.worlds[i + 1],
              bare.worlds[n + 1]);
    }
  }

  /** After `i` events the run with cleanups is related to the bare one. */
  ghost predicate RelatedAt(run: History, bare: History, i: nat)
    requires i <= |run.events| && i < |run.worlds|
  {
    Position(run.events, i) < |bare.worlds| && Sim(run.worlds[i], bare.worlds[Position(run.events, i)])
  }

  lemma RelatedNext(cfg: Config, run: History, bare: History, i: nat)
    requires Run(cfg, run) && Run(cfg, bare) && Erases(run.events, bare.events) && 0 < i < |run.worlds|
    requires forall k :: 0 <= k < |bare.events| ==> CollisionFree(cfg, bare.worlds[k], bare.events[k])
    requires RelatedAt(run, bare, i - 1)
    ensures RelatedAt(run, bare, i)
  {
    PositionMonotone(run.events, i, |run.events|);
    SimAdvances(cfg, run, bare, i - 1);
  }

  lemma {:induction false} RunsStayRelated(cfg: Config, run: History, bare: History, i: nat)
    requires Run(cfg, run) && Run(cfg, bare) && Erases(run.events, bare.events) && i < |run.worlds|
    requires run.worlds[0] == bare.worlds[0]
    requires forall k :: 0 <= k < |bare.events| ==> CollisionFree(cfg, bare.worlds[k], bare.events[k])
    ensures RelatedAt(run, bare, i)
  {
    if i == 0 {
      SimReflexive(run.worlds[0]);
    } else {
      RunsStayRelated(cfg, run, bare, i - 1);
      RelatedNext(cfg, run, bare, i);
    }
  }

  lemma RunsLookAlike(cfg: Config, run: History, bare: History, i: nat)
    requires Run(cfg, run) && Run(cfg, bare) && Erases(run.events, bare.events)
    requires run.worlds[0] == bare.worlds[0]
    requires forall k :: 0 <= k < |bare.events| ==> CollisionFree(cfg, bare.worlds[k], bare.events[k])
    requires i < |run.events| && !IsCleanup(run.events[i])
    ensures var n := Position(run.events, i);
            && n < |bare.events| && bare.events[n] == run.events[i]
            && SameView(run.events[i], run.replies[i], bare.replies[n])
  {
    RunsStayRelated(cfg, run, bare, i);
    SimAdvances(cfg, run, bare, i);
  }

  // ---------- Cleanups can be inserted anywhere ----------

  /** The clock does not go back from `start` on. */
  predicate Timely(start: Time, es: seq<Event>) {
    && (|es| > 0 ==> start <= es[0].now)
    && forall i {:trigger es[i]} :: 0 < i < |es| ==> es[i - 1].now <= es[i].now
  }

  /** Event `i` of the run leads where `Step` says, with the answer it gives. */
  ghost predicate Plays(cfg: Config, run: History, i: nat)
    requires i < |run.events| && |run.worlds| == |run.events| + 1 && |run.replies| == |run.events|
  {
    Step(cfg, run.worlds[i], run.events[i]) == Outcome(run.worlds[i + 1], run.replies[i])
  }

  /** What becomes of the events when they happen one after the other from `w` on. */
  ghost predicate PlayedOut(cfg: Config, w: World, es: seq<Event>, run: History) {
    && run.events == es && |run.worlds| == |es| + 1 && |run.replies| == |es| && run.worlds[0] == w
    && forall i {:trigger Plays(cfg, run, i)} :: 0 <= i < |es| ==> Plays(cfg, run, i)
  }

  function Played(cfg: Config, w: World, es: seq<Event>): (run: History)
    ensures PlayedOut(cfg, w, es, run)
  {
    if |es| == 0 then History([w], [], [])
    else
      var before := Played(cfg, w, es[..|es| - 1]);
      var o := Step(cfg, before.worlds[|es| - 1], es[|es| - 1]);
      PlayedFurther(cfg, w, es, before, o);
      History(before.worlds + [o.world], es, before.replies + [o.response])
  }

  lemma PlayedFurther(cfg: Config, w: World, es: seq<Event>, before: History, o: Outcome)
    requires |es| > 0 && PlayedOut(cfg, w, es[..|es| - 1], before)
    requires o == Step(cfg, before.worlds[|es| - 1], es[|es| - 1])
    ensures PlayedOut(cfg, w, es, History(before.worlds + [o.world], es, before.replies + [o.response]))
  {
    var run := History(before.worlds + [o.world], es, before.replies + [o.response]);
    forall i | 0 <= i < |es| ensures Plays(cfg, run, i) {
      if i < |es| - 1 { assert Plays(cfg, before, i); }
    }
  }

  /** What may happen in the bare state may happen in the cleaned one. */
  lemma AdmissibleSim(cfg: Config, w: World, v: World, e: Event)
    requires Sim(w, v) && w.now <= e.now && Admissible(cfg, v, e)
    ensures Admissible(cfg, w, e)
  {
    if e.Exchange? { assert CodeRowSim(w.codes, v.codes, w.now, e.code); }
    if e.Rotate? && cfg.sha256(e.token) in w.refresh {
      var h := cfg.sha256(e.token);
      assert RowSim(w.refresh[h], v.refresh[h], w.access);
    }
  }

  lemma IssuingKeepsClock(cfg: Config, w: World, code: string, a: AuthorizationCode, d: Draws, faults: Faults)
    ensures IssueForCode(cfg, w, code, a, d, faults).world.now == w.now
  {}

  lemma SuccessorKeepsClock(cfg: Config, w: World, hash: string, r: RefreshToken, d: Draws, faults: Faults)
    ensures IssueSuccessor(cfg, w, hash, r, d, faults).world.now == w.now
  {}

  lemma TokenCallKeepsClock(cfg: Config, w: World, e: Event)
    requires e.Exchange? || e.Rotate?
    ensures Step(cfg, w, e).world.now == e.now
  {
    var u := w.(now := e.now);
    if e.Exchange? && e.code in w.codes {
      IssuingKeepsClock(cfg, RedeemCode(u, e.code, w.codes[e.code].id), e.code, w.codes[e.code], e.draws, e.faults);
    } else if e.Rotate? && cfg.sha256(e.token) in w.refresh {
      var h := cfg.sha256(e.token);
      var r := w.refresh[h];
      SuccessorKeepsClock(cfg, u.(refresh := UseRefresh(u.refresh, r.id, u.now)), h, r, e.draws, e.faults);
    }
  }

  lemma LoginKeepsClock(cfg: Config, w: World, e: Event)
    requires e.Login? || e.ChangePassword?
    ensures Step(cfg, w, e).world.now == e.now
  {}

  lemma WebKeepsClock(cfg: Config, w: World, e: Event)
    requires e.WebLogin? || e.WebCallback?
    ensures Step(cfg, w, e).world.now == e.now
  {}

  lemma StepReadsClock(cfg: Config, w: World, e: Event)
    ensures Step(cfg, w, e).world.now == e.now
  {
    if e.Exchange? || e.Rotate? { TokenCallKeepsClock(cfg, w, e); }
    else if e.Login? || e.ChangePassword? { LoginKeepsClock(cfg, w, e); }
    else if e.WebLogin? || e.WebCallback? { WebKeepsClock(cfg, w, e); }
    else if e.Revoke? || e.Logout? {
      var u := w.(now := e.now);
      if e.Revoke? {
        RequestMarks(cfg, u, e.caller, e.token, e.hint, e.faults);
      } else {
        LogoutMarks(cfg, u, e.token, e.faults);
      }
    }
  }

  /** A bare run, and its events with cleanups inserted in time order. */
  ghost predicate Inserted(cfg: Config, bare: History, es: seq<Event>) {
    && Run(cfg, bare) && Erases(es, bare.events) && Timely(bare.worlds[0].now, es)
    && forall k :: 0 <= k < |bare.events| ==> CollisionFree(cfg, bare.worlds[k], bare.events[k])
  }

  /** The state after `i` events, with cleanups, is sound, related to the bare one, and not ahead of the next event. */
  ghost predicate Related(cfg: Config, bare: History, es: seq<Event>, i: nat, w: World)
    requires i <= |es|
  {
    && Position(es, i) < |bare.worlds| && Inv(cfg, w) && Sim(w, bare.worlds[Position(es, i)])
    && (i < |es| ==> w.now <= es[i].now)
  }

  lemma MayHappen(cfg: Config, bare: History, es: seq<Event>, i: nat, w: World)
    requires Inserted(cfg, bare, es) && i < |es| && Related(cfg, bare, es, i, w)
    ensures Admissible(cfg, w, es[i])
  {
    var n := Position(es, i);
    if !IsCleanup(es[i]) {
      assert Proceeds(cfg, bare, n);
      AdmissibleSim(cfg, w, bare.worlds[n], es[i]);
    }
  }

  /** One event in the cleaned state, which the bare run goes through too unless it is a cleanup. */
  lemma StepFromRelated(cfg: Config, bare: History, n: nat, w: World, e: Event, o: Outcome)
    requires Run(cfg, bare) && n < |bare.worlds| && Inv(cfg, w) && Sim(w, bare.worlds[n])
    requires Admissible(cfg, w, e) && o == Step(cfg, w, e)
    requires !IsCleanup(e) ==> n < |bare.events| && bare.events[n] == e && CollisionFree(cfg, bare.worlds[n], e)
    ensures Inv(cfg, o.world) && o.world.now == e.now
    ensures if IsCleanup(e) then Sim(o.world, bare.worlds[n]) else Sim(o.world, bare.worlds[n + 1])
  {
    StepReadsClock(cfg, w, e);
    StepInv(cfg, w, e);
    assert Transition(cfg, w, e, o.response, o.world);
    if IsCleanup(e) {
      CleanupSim(cfg, w, bare.worlds[n], e, o.response, o.world);
    } else {
      assert Proceeds(cfg, bare, n);
      RunInv(cfg, bare, n);
      StepSim(cfg, w, bare.worlds[n], e, o.response, bare.replies[n], o.world, bare.worlds[n + 1]);
    }
  }

  /** The place in the bare run moves on unless the event is a cleanup, and the next event is no earlier. */
  lemma PlaceMovesOn(cfg: Config, bare: History, es: seq<Event>, i: nat)
    requires Inserted(cfg, bare, es) && i < |es|
    ensures Position(es, i + 1) == Position(es, i) + (if IsCleanup(es[i]) then 0 else 1) < |bare.worlds|
    ensures !IsCleanup(es[i]) ==> Position(es, i) < |bare.events| && bare.events[Position(es, i)] == es[i]
    ensures !IsCleanup(es[i]) ==> CollisionFree(cfg, bare.worlds[Position(es, i)], es[i])
    ensures i + 1 < |es| ==> es[i].now <= es[i + 1].now
  {
    PositionMonotone(es, i + 1, |es|);
    assert i + 1 < |es| ==> es[i + 1 - 1].now <= es[i + 1].now;
  }

  lemma StaysRelated(cfg: Config, bare: History, es: seq<Event>, i: nat, w: World, o: Outcome)
    requires Inserted(cfg, bare, es) && i < |es| && Related(cfg, bare, es, i, w) && o == Step(cfg, w, es[i])
    ensures Related(cfg, bare, es, i + 1, o.world)
  {
    MayHappen(cfg, bare, es, i, w);
    PlaceMovesOn(cfg, bare, es, i);
    StepFromRelated(cfg, bare, Position(es, i), w, es[i], o);
  }

  lemma PlayStaysRelated(cfg: Config, bare: History, run: History, i: nat)
    requires Inserted(cfg, bare, run.events) && PlayedOut(cfg, bare.worlds[0], run.events, run)
    requires 0 < i < |run.worlds| && Related(cfg, bare, run.events, i - 1, run.worlds[i - 1])
    ensures Related(cfg, bare, run.events, i, run.worlds[i])
  {
    assert Plays(cfg, run, i - 1);
    StaysRelated(cfg, bare, run.events, i - 1, run.worlds[i - 1], Outcome(run.worlds[i], run.replies[i - 1]));
  }

  lemma {:induction false} AllRelated(cfg: Config, bare: History, run: History, i: nat)
    requires Inserted(cfg, bare, run.events) && PlayedOut(cfg, bare.worlds[0], run.events, run) && i < |run.worlds|
    ensures Related(cfg, bare, run.events, i, run.worlds[i])
  {
    if i == 0 {
      SimReflexive(bare.worlds[0]);
    } else {
      AllRelated(cfg, bare, run, i - 1);
      PlayStaysRelated(cfg, bare, run, i);
    }
  }

  lemma SimReflexive(w: World)
    ensures Sim(w, w)
  {}

  lemma PlayProceeds(cfg: Config, bare: History, run: History, i: nat)
    requires Inserted(cfg, bare, run.events) && PlayedOut(cfg, bare.worlds[0], run.events, run) && i < |run.events|
    ensures Proceeds(cfg, run, i)
  {
    AllRelated(cfg, bare, run, i);
    MayHappen(cfg, bare, run.events, i, run.worlds[i]);
    assert Plays(cfg, run, i);
  }

  lemma InsertionIsRun(cfg: Config, bare: History, run: History)
    requires Inserted(cfg, bare, run.events) && PlayedOut(cfg, bare.worlds[0], run.events, run)
    ensures Run(cfg, run)
  {
    forall i | 0 <= i < |run.events| ensures Proceeds(cfg, run, i) { PlayProceeds(cfg, bare, run, i); }
  }

  /**
   Insert CleanupExpiredCodes and CleanupExpiredTokens anywhere into a run, in time order: the events
   still make a run, every code exchange and rotation gets the same answer from the token endpoint, and
   every request the same decision from the auth middleware.
   */
  lemma CleanupIsInvisible(cfg: Config, bare: History, es: seq<Event>, i: nat)
    requires Inserted(cfg, bare, es) && i < |es| && !IsCleanup(es[i])
    ensures var run, n := Played(cfg, bare.worlds[0], es), Position(es, i);
            && Run(cfg, run) && run.events == es
            && n < |bare.events| && bare.events[n] == es[i]
            && SameView(es[i], run.replies[i], bare.replies[n])
  {
    var run := Played(cfg, bare.worlds[0], es);
    InsertionIsRun(cfg, bare, run);
    RunsLookAlike(cfg, run, bare, i);
  }
}
