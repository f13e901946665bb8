/**
 Every event keeps the invariant, whichever of its repository operations fail. As a
 failed operation ends the call with the earlier writes in place, this covers the
 state after every prefix of a call's writes.
 */
module Preservation {
  import opened Prelude
  import opened Tables
  import opened Lifecycle
  import opened Invariant
  import S = SessionCookie

  lemma ClockTightens(w: World, now: Time)
    requires w.now <= now
    ensures Tightens(w, w.(now := now))
  {}

  lemma ClockInv(cfg: Config, w: World, now: Time)
    requires Inv(cfg, w) && w.now <= now
    ensures Inv(cfg, w.(now := now))
  {
    ClockTightens(w, now);
    TightenInv(cfg, w, w.(now := now));
  }

  /** The JWT of an access token names the token's user, and is good while the token is. */
  lemma JwtClaims(cfg: Config, user: Id, email: string, now: Time, nonce: nat)
    requires Lawful(cfg)
    ensures var jwt := GenerateAccessToken(cfg, user, email, now, nonce);
            cfg.verify(jwt) == Some(AccessClaims(cfg, user, email, now))
            && ClaimsMatch(cfg, jwt, user, now + cfg.accessLifetime)
  {}

  /** Statements that only set flags: no row comes or goes and no link changes. */
  ghost predicate Marks(w: World, v: World) {
    && v.ledger == w.ledger && v.now == w.now
    && v.codes.Keys == w.codes.Keys && v.access.Keys == w.access.Keys && v.refresh.Keys == w.refresh.Keys
    && (forall c :: c in w.codes ==> CodeTightens(w.codes[c], v.codes[c]))
    && (forall h :: h in w.access ==> AccessTightens(w.access[h], v.access[h]))
    && (forall h :: h in w.refresh ==> RefreshMarked(w.refresh[h], v.refresh[h]))
  }

  ghost predicate RefreshMarked(a: RefreshToken, b: RefreshToken) {
    && b == a.(revoked := b.revoked, revokedAt := b.revokedAt, revokeReason := b.revokeReason, usedAt := b.usedAt)
    && (a.revoked ==> b.revoked)
    && (a.usedAt.Some? ==> b.usedAt.Some?)
  }

  lemma MarksTightens(w: World, v: World)
    requires Marks(w, v)
    ensures Tightens(w, v)
  {}

  lemma MarksTrans(u: World, v: World, w: World)
    requires Marks(u, v) && Marks(v, w)
    ensures Marks(u, w)
  {}

  lemma RefreshMarks(w: World, t: RefreshTokens)
    requires t.Keys == w.refresh.Keys && forall h :: h in t ==> RefreshMarked(w.refresh[h], t[h])
    ensures Marks(w, w.(refresh := t)) && Tightens(w, w.(refresh := t))
  {
    MarksTightens(w, w.(refresh := t));
  }

  lemma AccessMarks(w: World, t: AccessTokens)
    requires t.Keys == w.access.Keys && forall h :: h in t ==> AccessTightens(w.access[h], t[h])
    ensures Marks(w, w.(access := t)) && Tightens(w, w.(access := t))
  {
    MarksTightens(w, w.(access := t));
  }

  lemma MarkRefreshInv(cfg: Config, w: World, t: RefreshTokens)
    requires Inv(cfg, w)
    requires t.Keys == w.refresh.Keys && forall h :: h in t ==> RefreshMarked(w.refresh[h], t[h])
    ensures Inv(cfg, w.(refresh := t))
  {
    RefreshMarks(w, t);
    TightenInv(cfg, w, w.(refresh := t));
  }

  lemma MarkAccessInv(cfg: Config, w: World, t: AccessTokens)
    requires Inv(cfg, w)
    requires t.Keys == w.access.Keys && forall h :: h in t ==> AccessTightens(w.access[h], t[h])
    ensures Inv(cfg, w.(access := t))
  {
    AccessMarks(w, t);
    TightenInv(cfg, w, w.(access := t));
  }

  lemma CodesTighten(w: World, t: Codes)
    requires t.Keys <= w.codes.Keys && forall c :: c in t ==> CodeTightens(w.codes[c], t[c])
    ensures Tightens(w, w.(codes := t))
  {}

  // ---------- Code exchange ----------

  /** A redeemed code that has founded no family and whose terms are those of `a`. */
  ghost predicate Redeeming(l: Ledger, code: string, a: AuthorizationCode) {
    && code in l.redeemed && code in l.codes
    && l.codes[code] == Grant(a.client, a.user, a.redirectUri, a.scope)
    && (forall f :: f in l.families ==> l.families[f] != code)
  }

  lemma RedeemedFoundsNothing(cfg: Config, w: World, code: string)
    requires Inv(cfg, w) && code in w.codes && w.codes[code].usedAt.None?
    ensures Redeeming(RedeemCode(w, code, w.codes[code].id).ledger, code, w.codes[code])
  {
    assert CodeRowOk(w.codes, w.ledger, code);
    forall f | f in w.ledger.families ensures w.ledger.families[f] != code { assert FamilyOk(w.ledger, f); }
  }

  lemma ContainsNonempty(s: string, t: string)
    requires Contains(s, t) && t != ""
    ensures s != ""
  {}

  lemma FirstRefreshInv(cfg: Config, w: World, code: string, a: AuthorizationCode, jwt: string, d: Draws,
                        faults: Faults)
    requires Inv(cfg, w) && Redeeming(w.ledger, code, a)
    requires d.refreshId !in w.ledger.ids && d.family !in w.ledger.ids && d.refreshId != d.family
    requires FreshToken(cfg, w.ledger, d)
    requires var h := cfg.sha256(jwt);
             && h in w.ledger.access && w.ledger.access[h].code == Some(code) && w.ledger.access[h].id == d.accessId
             && forall k :: k in w.ledger.refresh ==> w.ledger.refresh[k].access != h
    ensures Inv(cfg, IssueFirstRefresh(cfg, w, code, a, jwt, d, faults).world)
  {
    var granted := if a.scope.Some? then a.scope.value else "";
    if IssueFirstRefresh(cfg, w, code, a, jwt, d, faults).world != w {
      ContainsNonempty(granted, "offline_access");
      var row := FirstRefresh(cfg, w, a, granted, d);
      var origin := RefreshOrigin(d.refreshId, d.family, 0, None, cfg.sha256(jwt), code);
      assert Linked(w.ledger, cfg.sha256(d.token), row, origin);
      assert Founds(w.ledger, row, origin);
      StoreRefreshInv(cfg, w, cfg.sha256(d.token), row, origin);
    }
  }

  lemma UnlinkedSoFar(cfg: Config, w: World, hash: string)
    requires Inv(cfg, w) && hash !in w.ledger.access
    ensures forall k :: k in w.ledger.refresh ==> w.ledger.refresh[k].access != hash
  {
    forall k | k in w.ledger.refresh ensures w.ledger.refresh[k].access != hash {
      assert RefreshOriginOk(w.ledger, k);
    }
  }

  lemma IssueForCodeInv(cfg: Config, w: World, code: string, a: AuthorizationCode, d: Draws, faults: Faults)
    requires Lawful(cfg) && Inv(cfg, w) && Redeeming(w.ledger, code, a)
    requires FreshIds(w.ledger, d) && FreshToken(cfg, w.ledger, d) && FreshJwt(cfg, w, w.now, a.user, d)
    ensures Inv(cfg, IssueForCode(cfg, w, code, a, d, faults).world)
  {
    if IssueForCode(cfg, w, code, a, d, faults).world != w {
      var jwt := GenerateAccessToken(cfg, a.user, w.users[a.user].email, w.now, d.nonce);
      var h, row := cfg.sha256(jwt), ExchangedAccess(cfg, w, a, d);
      JwtClaims(cfg, a.user, w.users[a.user].email, w.now, d.nonce);
      assert Issuable(cfg, w.ledger, h, row, jwt, Some(code));
      StoreAccessInv(cfg, w, h, row, jwt, Some(code));
      UnlinkedSoFar(cfg, w, h);
      FirstRefreshInv(cfg, StoreAccess(w, h, row, jwt, Some(code)), code, a, jwt, d, faults);
    }
  }

  lemma ExchangeInv(cfg: Config, w: World, e: Event)
    requires Lawful(cfg) && Inv(cfg, w) && e.Exchange? && e.now == w.now && Admissible(cfg, w, e)
    ensures Inv(cfg, ExchangeCode(cfg, w, e.code, e.client, e.secret, e.redirectUri, e.draws, e.faults).world)
  {
    if ExchangeCode(cfg, w, e.code, e.client, e.secret, e.redirectUri, e.draws, e.faults).world != w {
      var a := w.codes[e.code];
      RedeemInv(cfg, w, e.code);
      RedeemedFoundsNothing(cfg, w, e.code);
      IssueForCodeInv(cfg, RedeemCode(w, e.code, a.id), e.code, a, e.draws, e.faults);
    }
  }

  // ---------- Rotation ----------

  /** The presented token: the newest of its family, marked used, with the terms of its code. */
  ghost predicate Rotating(w: World, hash: string, r: RefreshToken) {
    && hash in w.ledger.refresh && hash in w.refresh
    && w.refresh[hash].revoked && w.refresh[hash].usedAt.Some?
    && (forall k :: k in w.ledger.refresh ==> !Newer(w.ledger.refresh[k], w.ledger.refresh[hash]))
    && var o := w.ledger.refresh[hash];
       && r.id == o.id && r.family == o.family
       && o.code in w.ledger.codes && o.code in w.ledger.redeemed
       && var g := w.ledger.codes[o.code];
          g.client == r.client && g.user == r.user && g.scope == Some(r.scope) && r.scope != ""
  }

  lemma MarkedUsedIsRotating(cfg: Config, w: World, hash: string)
    requires Inv(cfg, w) && hash in w.refresh && !w.refresh[hash].revoked
    ensures Rotating(w.(refresh := UseRefresh(w.refresh, w.refresh[hash].id, w.now)), hash, w.refresh[hash])
  {
    assert RefreshRowOk(w.refresh, w.access, w.ledger, hash);
    assert RefreshOriginOk(w.ledger, hash);
    assert FamilyOk(w.ledger, w.ledger.refresh[hash].family);
  }

  lemma NextRefreshInv(cfg: Config, w: World, hash: string, r: RefreshToken, jwt: string, d: Draws, faults: Faults)
    requires Inv(cfg, w) && Rotating(w, hash, r)
    requires d.refreshId !in w.ledger.ids && FreshToken(cfg, w.ledger, d)
    requires var h := cfg.sha256(jwt);
             && h in w.ledger.access && w.ledger.access[h].code == Some(CodeOf(w.ledger, hash))
             && w.ledger.access[h].id == d.accessId
             && forall k :: k in w.ledger.refresh ==> w.ledger.refresh[k].access != h
    ensures Inv(cfg, IssueNextRefresh(cfg, w, hash, r, jwt, d, faults).world)
  {
    if IssueNextRefresh(cfg, w, hash, r, jwt, d, faults).world != w {
      assert RefreshOriginOk(w.ledger, hash);
      assert FamilyOk(w.ledger, r.family);
      var row := NextRefresh(cfg, w, r, d);
      var origin := RefreshOrigin(d.refreshId, r.family, GenerationOf(w.ledger, hash) + 1, Some(hash),
                                  cfg.sha256(jwt), CodeOf(w.ledger, hash));
      assert Linked(w.ledger, cfg.sha256(d.token), row, origin);
      assert Succeeds(w.refresh, w.ledger, row, origin);
      StoreRefreshInv(cfg, w, cfg.sha256(d.token), row, origin);
    }
  }

  lemma SuccessorInv(cfg: Config, w: World, hash: string, r: RefreshToken, d: Draws, faults: Faults)
    requires Lawful(cfg) && Inv(cfg, w) && Rotating(w, hash, r)
    requires FreshIds(w.ledger, d) && FreshToken(cfg, w.ledger, d) && FreshJwt(cfg, w, w.now, r.user, d)
    ensures Inv(cfg, IssueSuccessor(cfg, w, hash, r, d, faults).world)
  {
    if IssueSuccessor(cfg, w, hash, r, d, faults).world != w {
      var jwt := GenerateAccessToken(cfg, r.user, w.users[r.user].email, w.now, d.nonce);
      var h, row, code := cfg.sha256(jwt), RotatedAccess(cfg, w, r, d), Some(CodeOf(w.ledger, hash));
      JwtClaims(cfg, r.user, w.users[r.user].email, w.now, d.nonce);
      assert Issuable(cfg, w.ledger, h, row, jwt, code);
      StoreAccessInv(cfg, w, h, row, jwt, code);
      UnlinkedSoFar(cfg, w, h);
      NextRefreshInv(cfg, StoreAccess(w, h, row, jwt, code), hash, r, jwt, d, faults);
    }
  }

  lemma RotateInv(cfg: Config, w: World, e: Event)
    requires Lawful(cfg) && Inv(cfg, w) && e.Rotate? && e.now == w.now && Admissible(cfg, w, e)
    ensures Inv(cfg, RotateToken(cfg, w, e.token, e.clientId, e.secret, e.draws, e.faults).world)
  {
    var hash := cfg.sha256(e.token);
    if RotateToken(cfg, w, e.token, e.clientId, e.secret, e.draws, e.faults).world != w {
      var r := w.refresh[hash];
      if r.revoked {
        MarkRefreshInv(cfg, w, RevokeFamily(w.refresh, r.family, "replay_detected", w.now));
      } else {
        var v := w.(refresh := UseRefresh(w.refresh, r.id, w.now));
        MarkRefreshInv(cfg, w, v.refresh);
        MarkedUsedIsRotating(cfg, w, hash);
        SuccessorInv(cfg, v, hash, r, e.draws, e.faults);
      }
    }
  }

  // ---------- Calls that only tighten ----------

  /** Events whose writes never add a row or a code. */
  predicate OnlyTightens(e: Event) {
    || e.Revoke? || e.Logout? || e.AdminRevokeRefresh? || e.AdminRevokeCode? || e.AdminRevokeAccess?
    || e.RevokeUserSessions? || e.RevokeClientSessions? || e.CleanupExpiredCodes? || e.CleanupExpiredTokens?
        || e.PurgeExpiredRefreshTokens?
    || e.DeleteProvider? || e.ChangeClient? || e.ChangeUser? || e.Request?
  }

  lemma CleanAccessTightens(w: World)
    ensures Tightens(w, CleanAccess(w))
  {
    var v := CleanAccess(w);
    forall h | h in v.refresh ensures RefreshTightens(w.refresh[h], v.refresh[h], v.access, v.refresh) {}
  }

  lemma PurgeTightens(w: World)
    ensures Tightens(w, w.(refresh := DropExpiredRefresh(w.refresh, w.now)))
  {
    var t := DropExpiredRefresh(w.refresh, w.now);
    var kept := map h | h in w.refresh && !(w.refresh[h].expiresAt < w.now) :: w.refresh[h];
    forall h | h in t ensures RefreshTightens(w.refresh[h], t[h], w.access, t) {
      if t[h].previous != w.refresh[h].previous {
        forall k | k in t ensures t[k].id != w.refresh[h].previous.value { assert k in kept; }
      }
    }
  }

  lemma RevokeLinkedMarks(w: World, r: RefreshToken, faults: Faults)
    ensures Marks(w, RevokeRefreshAndLinked(w, r, faults).world)
  {
    var w1 := w.(refresh := RevokeRefresh(w.refresh, r.id, "client_revoked", w.now));
    RefreshMarks(w, w1.refresh);
    var o := RevokeRefreshAndLinked(w, r, faults);
    if r.revoked || RevokeRefreshToken in faults {
      assert o.world == w;
    } else if r.access.None? || GetAccessTokenByID in faults || RevokeAccessToken in faults {
      assert o.world == w1;
    } else {
      var w2 := w1.(access := RevokeAccess(w1.access, r.access.value));
      AccessMarks(w1, w2.access);
      MarksTrans(w, w1, w2);
      assert o.world == w2;
    }
  }

  lemma RevokeMarks(cfg: Config, w: World, token: string, hint: string, faults: Faults)
    ensures Marks(w, RevokeAnyToken(cfg, w, token, hint, faults).world)
  {
    var hash, o := cfg.sha256(token), RevokeAnyToken(cfg, w, token, hint, faults);
    if o.world != w {
      if hint != "access_token" && hash in w.refresh {
        RevokeLinkedMarks(w, w.refresh[hash], faults);
      } else {
        AccessMarks(w, RevokeAccess(w.access, w.access[hash].id));
      }
    }
  }

  lemma MarksReflexive(w: World)
    ensures Marks(w, w)
  {}

  lemma RequestMarks(cfg: Config, w: World, caller: Caller, token: string, hint: string, faults: Faults)
    ensures Marks(w, RevokeRequest(cfg, w, caller, token, hint, faults).world)
  {
    MarksReflexive(w);
    RevokeMarks(cfg, w, token, hint, faults);
  }

  lemma LogoutAccessMarks(w: World, hash: string, faults: Faults)
    ensures Marks(w, LogoutAccess(w, hash, faults))
  {
    MarksReflexive(w);
    if hash in w.access { AccessMarks(w, RevokeAccess(w.access, w.access[hash].id)); }
  }

  lemma LogoutRefreshMarks(w: World, user: Id, faults: Faults)
    ensures Marks(w, LogoutRefresh(w, user, faults))
  {
    MarksReflexive(w);
    RefreshMarks(w, RevokeRefreshOfUser(w.refresh, user, "logout", w.now));
  }

  lemma LogoutMarks(cfg: Config, w: World, token: string, faults: Faults)
    ensures Marks(w, LogoutUser(cfg, w, token, faults).world)
  {
    MarksReflexive(w);
    var admitted, w1 := Admit(cfg, w, token, faults), LogoutAccess(w, cfg.sha256(token), faults);
    if admitted.Admitted? {
      LogoutAccessMarks(w, cfg.sha256(token), faults);
      LogoutRefreshMarks(w1, admitted.user, faults);
      MarksTrans(w, w1, LogoutRefresh(w1, admitted.user, faults));
    }
  }

  lemma SoleTightens(w: World, w': World, faults: Faults)
    requires Tightens(w, w')
    ensures Tightens(w, Sole(w, w', faults).world)
  {
    ClockTightens(w, w.now);
  }

  lemma RevocationTightens(cfg: Config, w: World, e: Event)
    requires e.now == w.now
    requires e.AdminRevokeRefresh? || e.AdminRevokeAccess? || e.RevokeUserSessions? || e.RevokeClientSessions?
    ensures Tightens(w, Step(cfg, w, e).world)
  {
    ClockTightens(w, w.now);
    match e
    case AdminRevokeRefresh(_, user, faults) =>
      var t := RevokeRefreshOfUser(w.refresh, user, "admin_revoked", w.now);
      RefreshMarks(w, t);
      SoleTightens(w, w.(refresh := t), faults);
    case AdminRevokeAccess(_, id, faults) =>
      AccessMarks(w, RevokeAccess(w.access, id));
      SoleTightens(w, w.(access := RevokeAccess(w.access, id)), faults);
    case RevokeUserSessions(_, user, faults) =>
      AccessMarks(w, RevokeAccessOfUser(w.access, user));
      SoleTightens(w, w.(access := RevokeAccessOfUser(w.access, user)), faults);
    case RevokeClientSessions(_, client, faults) =>
      AccessMarks(w, RevokeAccessOfClient(w.access, client));
      SoleTightens(w, w.(access := RevokeAccessOfClient(w.access, client)), faults);
  }

  lemma CodeEventTightens(cfg: Config, w: World, e: Event)
    requires e.now == w.now
    requires e.AdminRevokeCode? || e.CleanupExpiredCodes? || e.DeleteProvider?
    ensures Tightens(w, Step(cfg, w, e).world)
  {
    ClockTightens(w, w.now);
    match e
    case AdminRevokeCode(_, id, faults) =>
      CodesTighten(w, RevokeCode(w.codes, id));
      SoleTightens(w, w.(codes := RevokeCode(w.codes, id)), faults);
    case CleanupExpiredCodes(_, faults) =>
      CodesTighten(w, DropExpiredCodes(w.codes, w.now));
      SoleTightens(w, w.(codes := DropExpiredCodes(w.codes, w.now)), faults);
    case DeleteProvider(_, id, faults) =>
      CodesTighten(w, DropCodesOf(w.codes, id));
      SoleTightens(w, w.(codes := DropCodesOf(w.codes, id)), faults);
  }

  lemma OtherEventTightens(cfg: Config, w: World, e: Event)
    requires e.now == w.now
    requires e.Revoke? || e.Logout? || e.CleanupExpiredTokens? || e.PurgeExpiredRefreshTokens?
    ensures Tightens(w, Step(cfg, w, e).world)
  {
    match e
    case Revoke(_, caller, token, hint, faults) =>
      RequestMarks(cfg, w, caller, token, hint, faults);
      MarksTightens(w, RevokeRequest(cfg, w, caller, token, hint, faults).world);
    case Logout(_, token, faults) =>
      LogoutMarks(cfg, w, token, faults);
      MarksTightens(w, LogoutUser(cfg, w, token, faults).world);
    case CleanupExpiredTokens(_, faults) =>
      CleanAccessTightens(w);
      SoleTightens(w, CleanAccess(w), faults);
    case PurgeExpiredRefreshTokens(_, faults) =>
      PurgeTightens(w);
      SoleTightens(w, w.(refresh := DropExpiredRefresh(w.refresh, w.now)), faults);
  }

  /** The clock reading is all that matters of the clock before. */
  lemma ClockFirst(cfg: Config, w: World, e: Event)
    ensures Step(cfg, w, e) == Step(cfg, w.(now := e.now), e)
  {
    assert w.(now := e.now) == w.(now := e.now).(now := e.now);
  }

  lemma TighteningNow(cfg: Config, w: World, e: Event)
    requires OnlyTightens(e) && w.now == e.now
    ensures Tightens(w, Step(cfg, w, e).world)
  {
    if e.AdminRevokeRefresh? || e.AdminRevokeAccess? || e.RevokeUserSessions? || e.RevokeClientSessions? {
      RevocationTightens(cfg, w, e);
    } else if e.AdminRevokeCode? || e.CleanupExpiredCodes? || e.DeleteProvider? {
      CodeEventTightens(cfg, w, e);
    } else if e.Revoke? || e.Logout? || e.CleanupExpiredTokens? || e.PurgeExpiredRefreshTokens? {
      OtherEventTightens(cfg, w, e);
    } else {
      ClockTightens(w, w.now);
    }
  }

  /** An earlier clock is tightened too. */
  lemma TightensFromEarlier(w: World, now: Time, v: World)
    requires w.now <= now && Tightens(w.(now := now), v)
    ensures Tightens(w, v)
  {}

  /** Neither revocation, nor logout, nor cleanup, nor administration adds a token. */
  lemma TighteningEvents(cfg: Config, w: World, e: Event)
    requires OnlyTightens(e) && w.now <= e.now
    ensures Tightens(w, Step(cfg, w, e).world)
  {
    ClockFirst(cfg, w, e);
    TighteningNow(cfg, w.(now := e.now), e);
    TightensFromEarlier(w, e.now, Step(cfg, w, e).world);
  }

  // ---------- Direct login and password change ----------

  lemma StoreLoginTokenInv(cfg: Config, w: World, user: Id, email: string, d: Draws, faults: Faults)
    requires Lawful(cfg) && Inv(cfg, w) && d.accessId !in w.ledger.ids
    requires var h := cfg.sha256(GenerateAccessToken(cfg, user, email, w.now, d.nonce));
             h !in w.ledger.access && h !in w.ledger.refresh
    ensures var jwt := GenerateAccessToken(cfg, user, email, w.now, d.nonce);
            Inv(cfg, StoreLoginToken(cfg, w, user, jwt, d, faults).world)
  {
    var jwt := GenerateAccessToken(cfg, user, email, w.now, d.nonce);
    var h, row := cfg.sha256(jwt), LoginAccess(cfg, w, user, d);
    if StoreLoginToken(cfg, w, user, jwt, d, faults).world != w {
      JwtClaims(cfg, user, email, w.now, d.nonce);
      assert Issuable(cfg, w.ledger, h, row, jwt, None);
      StoreAccessInv(cfg, w, h, row, jwt, None);
      assert StoreLoginToken(cfg, w, user, jwt, d, faults).world == StoreAccess(w, h, row, jwt, None);
    }
  }

  lemma LoginInv(cfg: Config, w: World, e: Event)
    requires Lawful(cfg) && Inv(cfg, w) && e.Login? && e.now == w.now && Admissible(cfg, w, e)
    ensures Inv(cfg, LoginUser(cfg, w, e.user, e.draws, e.faults).world)
  {
    if LoginUser(cfg, w, e.user, e.draws, e.faults).world != w {
      var v := w.(access := RevokeAccessOfUser(w.access, e.user));
      MarkAccessInv(cfg, w, v.access);
      StoreLoginTokenInv(cfg, v, e.user, w.users[e.user].email, e.draws, e.faults);
    }
  }

  lemma UsersInv(cfg: Config, w: World, users: map<Id, User>)
    requires Inv(cfg, w)
    ensures Inv(cfg, w.(users := users))
  {}

  lemma EndSessionsInv(cfg: Config, w: World, user: Id, email: string, d: Draws, faults: Faults)
    requires Lawful(cfg) && Inv(cfg, w) && d.accessId !in w.ledger.ids
    requires var h := cfg.sha256(GenerateAccessToken(cfg, user, email, w.now, d.nonce));
             h !in w.ledger.access && h !in w.ledger.refresh
    ensures Inv(cfg, EndSessions(cfg, w, user, email, d, faults).world)
  {
    var t := if RevokeRefreshTokensByUser in faults then w.refresh
             else RevokeRefreshOfUser(w.refresh, user, "password_change", w.now);
    MarkRefreshInv(cfg, w, t);
    StoreLoginTokenInv(cfg, w.(refresh := t), user, email, d, faults);
  }

  lemma PasswordInv(cfg: Config, w: World, e: Event)
    requires Lawful(cfg) && Inv(cfg, w) && e.ChangePassword? && e.now == w.now && Admissible(cfg, w, e)
    ensures Inv(cfg, ChangeUserPassword(cfg, w, e.user, e.policyOk, e.newHash, e.draws, e.faults).world)
  {
    if ChangeUserPassword(cfg, w, e.user, e.policyOk, e.newHash, e.draws, e.faults).world != w {
      var u1 := PasswordSet(w.users, e.user, e.newHash);
      UsersInv(cfg, w, u1);
      var u2 := FlagCleared(u1, e.user);
      UsersInv(cfg, w, u2);
      EndSessionsInv(cfg, w.(users := u2), e.user, w.users[e.user].email, e.draws, e.faults);
    }
  }

  // ---------- Web login ----------

  lemma SignedInv(cfg: Config, w: World, session: S.Session)
    requires Inv(cfg, w)
    ensures Inv(cfg, w.(ledger := w.ledger.(
                          approved := w.ledger.approved + {(session.client, session.redirectUri)},
                          signed := w.ledger.signed[S.Payload(cfg.cookies, session) := session])))
  {
    var l := w.ledger.(approved := w.ledger.approved + {(session.client, session.redirectUri)},
                       signed := w.ledger.signed[S.Payload(cfg.cookies, session) := session]);
    forall p | p in l.signed ensures SignedOk(cfg, l, p) {
      if p != S.Payload(cfg.cookies, session) { assert SignedOk(cfg, w.ledger, p); }
    }
    forall c | c in l.codes ensures GrantApproved(l, c) { assert GrantApproved(w.ledger, c); }
    forall c | c in w.codes ensures CodeRowOk(w.codes, l, c) { assert CodeRowOk(w.codes, w.ledger, c); }
    SameHistory(cfg, w.ledger, l);
    SameAccessRows(w.access, w.now, w.ledger, l);
    SameRows(w.refresh, w.access, w.ledger, w.access, l);
  }

  lemma WebLoginInv(cfg: Config, w: World, e: Event)
    requires Inv(cfg, w) && e.WebLogin?
    ensures Inv(cfg, StartWebLogin(cfg, w, e.client, e.providerName, e.provider, e.redirectUri, e.scope, e.state,
                                   e.faults).world)
  {
    SignedInv(cfg, w, S.Session(e.state, e.client, e.providerName, e.redirectUri, e.scope));
  }

  /** The cookie of an accepted callback names a client and redirect URI that passed the check at a login. */
  lemma CallbackIsApproved(cfg: Config, w: World, cookie: string)
    requires Lawful(cfg) && GrantsOk(cfg, w.ledger)
    requires S.DecodeSession(cfg.cookies, cookie).Accepted?
    requires var p := S.VerifiedPayload(cfg.cookies, cookie); p.Some? ==> p.value in w.ledger.signed
    ensures var s := S.DecodeSession(cfg.cookies, cookie).session; (s.client, s.redirectUri) in w.ledger.approved
  {
    S.AcceptedSessionWasSigned(cfg.cookies, cookie, S.DecodeSession(cfg.cookies, cookie).session);
    var p := S.VerifiedPayload(cfg.cookies, cookie).value;
    assert SignedOk(cfg, w.ledger, p);
    S.AcceptedSessionWasSigned(cfg.cookies, cookie, w.ledger.signed[p]);
  }

  lemma IssueCodeInv(cfg: Config, w: World, client: Id, provider: Id, redirectUri: string, scope: Option<string>,
                     user: Id, users: map<Id, User>, codeId: Id, code: string, faults: Faults)
    requires Inv(cfg, w)
    requires codeId !in w.ledger.ids && code !in w.ledger.codes && (client, redirectUri) in w.ledger.approved
    ensures Inv(cfg, IssueCodeTo(w, client, provider, redirectUri, scope, user, users, codeId, code, faults).world)
  {
    var row := AuthorizationCode(codeId, client, user, provider, redirectUri, scope, w.now + CODE_LIFETIME, None,
                                 false);
    var w1 := w.(users := users);
    UsersInv(cfg, w, users);
    var o := IssueCodeTo(w, client, provider, redirectUri, scope, user, users, codeId, code, faults);
    if o.response.IssuedCode? {
      StoreCodeInv(cfg, w1, code, row);
      assert o.world == StoreCode(w1, code, row);
    } else {
      assert o.world == w1;
    }
  }

  lemma HandleCallbackInv(cfg: Config, w: World, e: Event, redirectUri: string, scope: Option<string>)
    requires Inv(cfg, w) && e.WebCallback?
    requires e.codeId !in w.ledger.ids && e.code !in w.ledger.codes && (e.client, redirectUri) in w.ledger.approved
    ensures Inv(cfg, HandleProviderCallback(w, e.client, e.provider, redirectUri, scope, e.info, e.userId, e.codeId,
                                            e.code, e.faults).world)
  {
    if e.provider.Some? && e.info.Some? {
      var u := UpsertUser(w, e.provider.value.name, e.info.value, e.userId, e.faults);
      if u.Some? {
        IssueCodeInv(cfg, w, e.client, e.provider.value.id, redirectUri, scope, u.value.0, u.value.1, e.codeId, e.code,
                     e.faults);
      }
    }
  }

  lemma WebCallbackInv(cfg: Config, w: World, e: Event)
    requires Lawful(cfg) && Inv(cfg, w) && e.WebCallback? && e.now == w.now && Admissible(cfg, w, e)
    ensures Inv(cfg, FinishWebLogin(cfg, w, e.client, e.providerName, e.provider, e.state, e.cookie, e.info, e.userId,
                                    e.codeId, e.code, e.faults).world)
  {
    var decoded := S.DecodeSession(cfg.cookies, e.cookie);
    if decoded.Accepted? {
      CallbackIsApproved(cfg, w, e.cookie);
      if decoded.session.client == e.client {
        HandleCallbackInv(cfg, w, e, decoded.session.redirectUri, decoded.session.scope);
      }
    }
  }

  // ---------- Every event ----------

  /** The invariant holds after every event, successful or cut short. */
  lemma StepInv(cfg: Config, w: World, e: Event)
    requires Lawful(cfg) && Inv(cfg, w) && Admissible(cfg, w, e)
    ensures Inv(cfg, Step(cfg, w, e).world)
  {
    var v := w.(now := e.now);
    ClockTightens(w, e.now);
    TightenInv(cfg, w, v);
    if OnlyTightens(e) {
      TighteningEvents(cfg, w, e);
      TightenInv(cfg, w, Step(cfg, w, e).world);
    } else {
      assert Admissible(cfg, v, e);
      match e
      case WebLogin(_, _, _, _, _, _, _, _) => WebLoginInv(cfg, v, e);
      case WebCallback(_, _, _, _, _, _, _, _, _, _, _) => WebCallbackInv(cfg, v, e);
      case Exchange(_, _, _, _, _, _, _) => ExchangeInv(cfg, v, e);
      case Rotate(_, _, _, _, _, _) => RotateInv(cfg, v, e);
      case Login(_, _, _, _) => LoginInv(cfg, v, e);
      case ChangePassword(_, _, _, _, _, _) => PasswordInv(cfg, v, e);
    }
  }
}
