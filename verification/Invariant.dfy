/**
 The invariant of the token lifecycle, and the proof that every write of every
 call keeps it. All but four kinds of write only tighten: they revoke, mark or
 delete rows. Those four - storing a code, redeeming it, storing an access token and
 storing a refresh token - are treated one by one.
 */
module Invariant {
  import opened Prelude
  import opened Tables
  import opened Lifecycle
  import S = SessionCookie

  // ---------- What is known of the history ----------

  /** A signed payload: the session it stands for passed the registration check. */
  ghost predicate SignedOk(cfg: Config, l: Ledger, p: string)
    requires p in l.signed
  {
    p == S.Payload(cfg.cookies, l.signed[p]) && (l.signed[p].client, l.signed[p].redirectUri) in l.approved
  }

  ghost predicate GrantApproved(l: Ledger, c: string)
    requires c in l.codes
  {
    (l.codes[c].client, l.codes[c].redirectUri) in l.approved
  }

  ghost predicate GrantsOk(cfg: Config, l: Ledger) {
    && (forall p {:trigger SignedOk(cfg, l, p)} :: p in l.signed ==> SignedOk(cfg, l, p))
    && (forall c {:trigger GrantApproved(l, c)} :: c in l.codes ==> GrantApproved(l, c))
    && l.redeemed <= l.codes.Keys
  }

  /** A family: its code was redeemed, and granted some scope. */
  ghost predicate FamilyOk(l: Ledger, f: Id)
    requires f in l.families
  {
    && f in l.ids
    && l.families[f] in l.redeemed && l.families[f] in l.codes
    && l.codes[l.families[f]].scope.Some? && l.codes[l.families[f]].scope.value != ""
  }

  ghost predicate ShareCode(l: Ledger, f: Id, g: Id)
    requires f in l.families && g in l.families
  {
    l.families[f] == l.families[g]
  }

  ghost predicate FamiliesOk(l: Ledger) {
    && (forall f {:trigger FamilyOk(l, f)} :: f in l.families ==> FamilyOk(l, f))
    && (forall f, g {:trigger ShareCode(l, f, g)} ::
          f in l.families && g in l.families && ShareCode(l, f, g) ==> f == g)
  }

  /** The claims of a JWT that was issued to `user`, for a row that expires at `expiresAt`. */
  ghost predicate ClaimsMatch(cfg: Config, jwt: string, user: Id, expiresAt: Time) {
    && cfg.verify(jwt).Some?
    && cfg.verify(jwt).value.user == user
    && cfg.verify(jwt).value.expiresAt == WholeSeconds(expiresAt)
    && cfg.verify(jwt).value.notBefore == WholeSeconds(expiresAt - cfg.accessLifetime)
  }

  /** An issued access token: its hash, its JWT's claims, and the code behind it. */
  ghost predicate AccessOriginOk(cfg: Config, l: Ledger, h: string)
    requires h in l.access
  {
    var o := l.access[h];
    && cfg.sha256(o.jwt) == h
    && ClaimsMatch(cfg, o.jwt, o.user, o.expiresAt)
    && o.id in l.ids
    && h !in l.refresh
    && (o.client.Some? ==> o.code.Some?)
    && (o.code.Some? ==> o.code.value in l.redeemed && o.code.value in l.codes
                         && var g := l.codes[o.code.value];
                            o.client == Some(g.client) && o.user == g.user && o.scope == g.scope)
  }

  ghost predicate AccessOriginsOk(cfg: Config, l: Ledger) {
    && (forall h {:trigger AccessOriginOk(cfg, l, h)} :: h in l.access ==> AccessOriginOk(cfg, l, h))
    && (forall h, k {:trigger SameAccess(l.access[h], l.access[k])} ::
          h in l.access && k in l.access && SameAccess(l.access[h], l.access[k]) ==> h == k)
  }

  ghost predicate SameAccess(a: AccessOrigin, b: AccessOrigin) {
    a.id == b.id
  }

  /** An issued refresh token: its family, its parent one generation earlier, its access token. */
  ghost predicate RefreshOriginOk(l: Ledger, h: string)
    requires h in l.refresh
  {
    var o := l.refresh[h];
    && o.id in l.ids
    && o.family in l.families && l.families[o.family] == o.code
    && o.access in l.access && l.access[o.access].code == Some(o.code)
    && (o.parent.None? <==> o.generation == 0)
    && (o.parent.Some? ==> o.parent.value in l.refresh
                           && l.refresh[o.parent.value].family == o.family
                           && l.refresh[o.parent.value].generation == o.generation - 1)
  }

  ghost predicate RefreshOriginsOk(l: Ledger) {
    && (forall h {:trigger RefreshOriginOk(l, h)} :: h in l.refresh ==> RefreshOriginOk(l, h))
    && (forall h, k {:trigger SameSlot(l.refresh[h], l.refresh[k])} ::
          h in l.refresh && k in l.refresh && SameSlot(l.refresh[h], l.refresh[k]) ==> h == k)
  }

  /** Two refresh tokens that would share an id, a place in their family, or an access token. */
  ghost predicate SameSlot(a: RefreshOrigin, b: RefreshOrigin) {
    a.id == b.id || a.access == b.access || (a.family == b.family && a.generation == b.generation)
  }

  ghost predicate LedgerOk(cfg: Config, l: Ledger) {
    GrantsOk(cfg, l) && FamiliesOk(l) && AccessOriginsOk(cfg, l) && RefreshOriginsOk(l)
  }

  // ---------- How the rows relate to the history ----------

  ghost predicate CodeRowOk(t: Codes, l: Ledger, c: string)
    requires c in t
  {
    && c in l.codes
    && l.codes[c] == Grant(t[c].client, t[c].user, t[c].redirectUri, t[c].scope)
    && (t[c].usedAt.Some? <==> c in l.redeemed)
    && t[c].id in l.ids
  }

  ghost predicate CodesOk(t: Codes, l: Ledger) {
    && (forall c {:trigger CodeRowOk(t, l, c)} :: c in t ==> CodeRowOk(t, l, c))
    && (forall c, d {:trigger SameCode(t[c], t[d])} :: c in t && d in t && SameCode(t[c], t[d]) ==> c == d)
  }

  ghost predicate SameCode(a: AuthorizationCode, b: AuthorizationCode) {
    a.id == b.id
  }

  ghost predicate AccessRowOk(t: AccessTokens, l: Ledger, h: string)
    requires h in t
  {
    && h in l.access
    && t[h].id == l.access[h].id && t[h].client == l.access[h].client && t[h].user == l.access[h].user
    && t[h].scope == l.access[h].scope && t[h].expiresAt == l.access[h].expiresAt
  }

  /** Access token rows only disappear once expired. */
  ghost predicate GoneOnlyExpired(t: AccessTokens, now: Time, l: Ledger, h: string)
    requires h in l.access
  {
    h !in t ==> l.access[h].expiresAt < now
  }

  ghost predicate AccessOk(t: AccessTokens, now: Time, l: Ledger) {
    && (forall h {:trigger AccessRowOk(t, l, h)} :: h in t ==> AccessRowOk(t, l, h))
    && (forall h {:trigger GoneOnlyExpired(t, now, l, h)} :: h in l.access ==> GoneOnlyExpired(t, now, l, h))
  }

  /** A refresh token row agrees with its origin; its links are right while their targets are stored. */
  ghost predicate RefreshRowOk(t: RefreshTokens, access: AccessTokens, l: Ledger, h: string)
    requires h in t
  {
    h in l.refresh &&
    var r, o := t[h], l.refresh[h];
    && r.id == o.id && r.family == o.family
    && o.code in l.codes
    && l.codes[o.code].client == r.client && l.codes[o.code].user == r.user && l.codes[o.code].scope == Some(r.scope)
    && o.access in l.access
    && (r.access.Some? ==> r.access.value == l.access[o.access].id)
    && (o.access in access ==> r.access.Some?)
    && (r.previous.Some? ==> o.parent.Some? && o.parent.value in l.refresh
                             && r.previous.value == l.refresh[o.parent.value].id)
    && (o.parent.Some? && o.parent.value in t ==> r.previous.Some?)
  }

  /** Only the newest token of a family may be live: every older one is used and revoked. */
  ghost predicate Superseded(t: RefreshTokens, l: Ledger) {
    forall h, k {:trigger Newer(l.refresh[k], l.refresh[h])} ::
      h in t && h in l.refresh && k in l.refresh && Newer(l.refresh[k], l.refresh[h]) ==>
      t[h].revoked && t[h].usedAt.Some?
  }

  ghost predicate Newer(a: RefreshOrigin, b: RefreshOrigin) {
    a.family == b.family && a.generation > b.generation
  }

  ghost predicate RefreshOk(t: RefreshTokens, access: AccessTokens, l: Ledger) {
    && (forall h {:trigger RefreshRowOk(t, access, l, h)} :: h in t ==> RefreshRowOk(t, access, l, h))
    && Superseded(t, l)
  }

  ghost predicate Inv(cfg: Config, w: World) {
    && LedgerOk(cfg, w.ledger)
    && CodesOk(w.codes, w.ledger)
    && AccessOk(w.access, w.now, w.ledger)
    && RefreshOk(w.refresh, w.access, w.ledger)
  }

  lemma InitialInv(cfg: Config, w: World)
    requires Initial(w)
    ensures Inv(cfg, w)
  {}

  // ---------- What may happen ----------

  /** Signing for `user` with this call's nonce yields a JWT whose hash has never been stored. */
  ghost predicate FreshJwt(cfg: Config, w: World, now: Time, user: Id, draws: Draws) {
    user in w.users ==>
      var h := cfg.sha256(GenerateAccessToken(cfg, user, w.users[user].email, now, draws.nonce));
      h !in w.ledger.access && h !in w.ledger.refresh && h != cfg.sha256(draws.token)
  }

  ghost predicate FreshIds(l: Ledger, draws: Draws) {
    && draws.accessId !in l.ids && draws.refreshId !in l.ids && draws.family !in l.ids
    && draws.accessId != draws.refreshId && draws.accessId != draws.family && draws.refreshId != draws.family
  }

  ghost predicate FreshToken(cfg: Config, l: Ledger, draws: Draws) {
    cfg.sha256(draws.token) !in l.access && cfg.sha256(draws.token) !in l.refresh
  }

  /**
   The clock does not go back; random values, new ids and hashes are new; and a cookie
   whose signature verifies carries a payload the server signed.
   */
  ghost predicate Admissible(cfg: Config, w: World, e: Event) {
    && w.now <= e.now
    && match e {
         case WebCallback(_, _, _, _, _, cookie, _, _, codeId, code, _) =>
           && codeId !in w.ledger.ids
           && code !in w.ledger.codes
           && var p := S.VerifiedPayload(cfg.cookies, cookie);
              p.Some? ==> p.value in w.ledger.signed
         case Exchange(now, code, _, _, _, draws, _) =>
           && FreshIds(w.ledger, draws) && FreshToken(cfg, w.ledger, draws)
           && (code in w.codes ==> FreshJwt(cfg, w, now, w.codes[code].user, draws))
         case Rotate(now, token, _, _, draws, _) =>
           && FreshIds(w.ledger, draws) && FreshToken(cfg, w.ledger, draws)
           && (cfg.sha256(token) in w.refresh ==> FreshJwt(cfg, w, now, w.refresh[cfg.sha256(token)].user, draws))
         case Login(now, user, draws, _) => FreshIds(w.ledger, draws) && FreshJwt(cfg, w, now, user, draws)
         case ChangePassword(now, user, _, _, draws, _) =>
           FreshIds(w.ledger, draws) && FreshJwt(cfg, w, now, user, draws)
         case _ => true
       }
  }

  // ---------- Writes that only tighten ----------

  ghost predicate CodeTightens(a: AuthorizationCode, b: AuthorizationCode) {
    b == a.(revoked := b.revoked) && (a.revoked ==> b.revoked)
  }

  ghost predicate AccessTightens(a: AccessToken, b: AccessToken) {
    b == a.(revoked := b.revoked) && (a.revoked ==> b.revoked)
  }

  /** Identity kept, never un-revoked or un-used; a link may only be cleared once its target is gone. */
  ghost predicate RefreshTightens(a: RefreshToken, b: RefreshToken, access: AccessTokens, refresh: RefreshTokens) {
    && a.id == b.id && a.family == b.family && a.client == b.client && a.user == b.user && a.scope == b.scope
    && a.expiresAt == b.expiresAt
    && (a.revoked ==> b.revoked)
    && (a.usedAt.Some? ==> b.usedAt.Some?)
    && (b.access == a.access || (b.access.None? && a.access.Some? && !AccessStored(access, a.access.value)))
    && (b.previous == a.previous || (b.previous.None? && a.previous.Some? && !RefreshStored(refresh, a.previous.value)))
  }

  ghost predicate Tightens(w: World, v: World) {
    && v.ledger == w.ledger && w.now <= v.now
    && (forall c :: c in v.codes ==> c in w.codes && CodeTightens(w.codes[c], v.codes[c]))
    && (forall h :: h in v.access ==> h in w.access && AccessTightens(w.access[h], v.access[h]))
    && (forall h :: h in w.access && h !in v.access ==> w.access[h].expiresAt < v.now)
    && (forall h :: h in v.refresh ==> h in w.refresh
                                       && RefreshTightens(w.refresh[h], v.refresh[h], v.access, v.refresh))
  }

  lemma TightenCodes(w: World, v: World)
    requires CodesOk(w.codes, w.ledger) && Tightens(w, v)
    ensures CodesOk(v.codes, v.ledger)
  {
    forall c | c in v.codes ensures CodeRowOk(v.codes, v.ledger, c) {
      assert CodeRowOk(w.codes, w.ledger, c);
    }
    forall c, d | c in v.codes && d in v.codes && SameCode(v.codes[c], v.codes[d]) ensures c == d {
      assert SameCode(w.codes[c], w.codes[d]);
    }
  }

  lemma TightenAccess(w: World, v: World)
    requires AccessOk(w.access, w.now, w.ledger) && Tightens(w, v)
    ensures AccessOk(v.access, v.now, v.ledger)
  {
    forall h | h in v.access ensures AccessRowOk(v.access, v.ledger, h) {
      assert AccessRowOk(w.access, w.ledger, h);
    }
    forall h | h in v.ledger.access ensures GoneOnlyExpired(v.access, v.now, v.ledger, h) {
      assert GoneOnlyExpired(w.access, w.now, w.ledger, h);
      if h in w.access { assert AccessRowOk(w.access, w.ledger, h); }
    }
  }

  lemma TightenRow(w: World, v: World, h: string)
    requires RefreshOk(w.refresh, w.access, w.ledger) && AccessOk(w.access, w.now, w.ledger)
    requires Tightens(w, v) && h in v.refresh
    ensures RefreshRowOk(v.refresh, v.access, v.ledger, h)
  {
    assert RefreshRowOk(w.refresh, w.access, w.ledger, h);
    var a, b, o := w.refresh[h], v.refresh[h], w.ledger.refresh[h];
    assert RefreshTightens(a, b, v.access, v.refresh);
    if o.access in v.access {
      assert AccessTightens(w.access[o.access], v.access[o.access]);
      assert AccessRowOk(w.access, w.ledger, o.access);
      assert AccessStored(v.access, a.access.value);
    }
    if o.parent.Some? && o.parent.value in v.refresh {
      assert RefreshRowOk(w.refresh, w.access, w.ledger, o.parent.value);
      assert v.refresh[o.parent.value].id == a.previous.value;
    }
  }

  lemma TightenRefresh(w: World, v: World)
    requires RefreshOk(w.refresh, w.access, w.ledger) && AccessOk(w.access, w.now, w.ledger) && Tightens(w, v)
    ensures RefreshOk(v.refresh, v.access, v.ledger)
  {
    forall h | h in v.refresh ensures RefreshRowOk(v.refresh, v.access, v.ledger, h) {
      TightenRow(w, v, h);
    }
  }

  lemma TightenInv(cfg: Config, w: World, v: World)
    requires Inv(cfg, w) && Tightens(w, v)
    ensures Inv(cfg, v)
  {
    TightenCodes(w, v);
    TightenAccess(w, v);
    TightenRefresh(w, v);
  }

  // ---------- Writes that add rows ----------

  /** A new code row, whose grant is approved and whose id is new. */
  lemma StoreCodeRows(cfg: Config, w: World, code: string, row: AuthorizationCode)
    requires GrantsOk(cfg, w.ledger) && CodesOk(w.codes, w.ledger)
    requires row.id !in w.ledger.ids && code !in w.ledger.codes && row.usedAt.None?
    requires (row.client, row.redirectUri) in w.ledger.approved
    ensures var v := StoreCode(w, code, row); GrantsOk(cfg, v.ledger) && CodesOk(v.codes, v.ledger)
  {
    var v := StoreCode(w, code, row);
    forall p | p in v.ledger.signed ensures SignedOk(cfg, v.ledger, p) { assert SignedOk(cfg, w.ledger, p); }
    forall c | c in v.ledger.codes ensures GrantApproved(v.ledger, c) {
      if c != code { assert GrantApproved(w.ledger, c); }
    }
    forall c | c in v.codes ensures CodeRowOk(v.codes, v.ledger, c) {
      if c != code { assert CodeRowOk(w.codes, w.ledger, c); }
    }
    forall c, d | c in v.codes && d in v.codes && SameCode(v.codes[c], v.codes[d]) ensures c == d {
      if c != code { assert CodeRowOk(w.codes, w.ledger, c); }
      if d != code { assert CodeRowOk(w.codes, w.ledger, d); }
      if c != code && d != code { assert SameCode(w.codes[c], w.codes[d]); }
    }
  }

  lemma StoreCodeInv(cfg: Config, w: World, code: string, row: AuthorizationCode)
    requires Inv(cfg, w)
    requires row.id !in w.ledger.ids && code !in w.ledger.codes && row.usedAt.None?
    requires (row.client, row.redirectUri) in w.ledger.approved
    ensures Inv(cfg, StoreCode(w, code, row))
  {
    var v := StoreCode(w, code, row);
    StoreCodeRows(cfg, w, code, row);
    SameHistory(cfg, w.ledger, v.ledger);
    SameAccessRows(w.access, w.now, w.ledger, v.ledger);
    SameRows(w.refresh, w.access, w.ledger, v.access, v.ledger);
  }

  lemma RedeemRows(cfg: Config, w: World, code: string)
    requires GrantsOk(cfg, w.ledger) && CodesOk(w.codes, w.ledger)
    requires code in w.codes && w.codes[code].usedAt.None?
    ensures var v := RedeemCode(w, code, w.codes[code].id); GrantsOk(cfg, v.ledger) && CodesOk(v.codes, v.ledger)
  {
    var v := RedeemCode(w, code, w.codes[code].id);
    assert CodeRowOk(w.codes, w.ledger, code);
    forall p | p in v.ledger.signed ensures SignedOk(cfg, v.ledger, p) { assert SignedOk(cfg, w.ledger, p); }
    forall c | c in v.ledger.codes ensures GrantApproved(v.ledger, c) { assert GrantApproved(w.ledger, c); }
    forall c | c in v.codes ensures CodeRowOk(v.codes, v.ledger, c) {
      assert CodeRowOk(w.codes, w.ledger, c);
      if c != code { assert !SameCode(w.codes[c], w.codes[code]); }
    }
    forall c, d | c in v.codes && d in v.codes && SameCode(v.codes[c], v.codes[d]) ensures c == d {
      assert SameCode(w.codes[c], w.codes[d]);
    }
  }

  lemma RedeemInv(cfg: Config, w: World, code: string)
    requires Inv(cfg, w)
    requires code in w.codes && w.codes[code].usedAt.None?
    ensures Inv(cfg, RedeemCode(w, code, w.codes[code].id))
  {
    var v := RedeemCode(w, code, w.codes[code].id);
    RedeemRows(cfg, w, code);
    SameHistory(cfg, w.ledger, v.ledger);
    SameAccessRows(w.access, w.now, w.ledger, v.ledger);
    SameRows(w.refresh, w.access, w.ledger, v.access, v.ledger);
  }

  /** Growing the list of codes, or of redeemed codes, disturbs no family. */
  lemma SameFamilies(l: Ledger, m: Ledger)
    requires FamiliesOk(l) && m.families == l.families
    requires l.ids <= m.ids && l.redeemed <= m.redeemed
    requires forall c :: c in l.codes ==> c in m.codes && m.codes[c] == l.codes[c]
    ensures FamiliesOk(m)
  {
    forall f | f in m.families ensures FamilyOk(m, f) { assert FamilyOk(l, f); }
    forall f, g | f in m.families && g in m.families && ShareCode(m, f, g) ensures f == g { assert ShareCode(l, f, g); }
  }

  /** Growing the list of codes, or of redeemed codes, disturbs no token's origin. */
  lemma SameHistory(cfg: Config, l: Ledger, m: Ledger)
    requires LedgerOk(cfg, l)
    requires l.ids <= m.ids && l.redeemed <= m.redeemed
    requires m.access == l.access && m.families == l.families && m.refresh == l.refresh
    requires forall c :: c in l.codes ==> c in m.codes && m.codes[c] == l.codes[c]
    ensures FamiliesOk(m) && AccessOriginsOk(cfg, m) && RefreshOriginsOk(m)
  {
    SameFamilies(l, m);
    forall h | h in m.access ensures AccessOriginOk(cfg, m, h) { assert AccessOriginOk(cfg, l, h); }
    forall h | h in m.refresh ensures RefreshOriginOk(m, h) { assert RefreshOriginOk(l, h); }
  }

  lemma SameAccessRows(t: AccessTokens, now: Time, l: Ledger, m: Ledger)
    requires AccessOk(t, now, l) && m.access == l.access
    ensures AccessOk(t, now, m)
  {
    forall h | h in t ensures AccessRowOk(t, m, h) { assert AccessRowOk(t, l, h); }
    forall h | h in m.access ensures GoneOnlyExpired(t, now, m, h) { assert GoneOnlyExpired(t, now, l, h); }
  }

  /** What is known of codes survives any growth of the rest of the history. */
  lemma SameGrants(cfg: Config, t: Codes, l: Ledger, m: Ledger)
    requires GrantsOk(cfg, l) && CodesOk(t, l)
    requires l.ids <= m.ids && m.codes == l.codes && m.redeemed == l.redeemed
    requires m.signed == l.signed && m.approved == l.approved
    ensures GrantsOk(cfg, m) && CodesOk(t, m)
  {
    forall p | p in m.signed ensures SignedOk(cfg, m, p) { assert SignedOk(cfg, l, p); }
    forall c | c in m.codes ensures GrantApproved(m, c) { assert GrantApproved(l, c); }
    forall c | c in t ensures CodeRowOk(t, m, c) { assert CodeRowOk(t, l, c); }
  }

  /** Refresh rows stay right when unrelated history, or a new access token nobody links to, is added. */
  lemma SameRows(t: RefreshTokens, access: AccessTokens, l: Ledger, access': AccessTokens, m: Ledger)
    requires RefreshOk(t, access, l)
    requires m.refresh == l.refresh
    requires forall c :: c in l.codes ==> c in m.codes && m.codes[c] == l.codes[c]
    requires forall h :: h in l.access ==> h in m.access && m.access[h] == l.access[h]
    requires forall h :: h in access' ==> h in access || h !in l.access
    ensures RefreshOk(t, access', m)
  {
    forall h | h in t ensures RefreshRowOk(t, access', m, h) { assert RefreshRowOk(t, access, l, h); }
  }

  /** What is required of a new access token: a new hash and id, a JWT that speaks of it, and the terms of its code. */
  ghost predicate Issuable(cfg: Config, l: Ledger, hash: string, row: AccessToken, jwt: string, code: Option<string>) {
    && hash !in l.access && hash !in l.refresh && row.id !in l.ids
    && cfg.sha256(jwt) == hash && ClaimsMatch(cfg, jwt, row.user, row.expiresAt)
    && (row.client.Some? ==> code.Some?)
    && (code.Some? ==> code.value in l.redeemed && code.value in l.codes
                       && var g := l.codes[code.value];
                          row.client == Some(g.client) && row.user == g.user && row.scope == g.scope)
  }

  lemma StoreAccessOrigins(cfg: Config, w: World, hash: string, row: AccessToken, jwt: string, code: Option<string>)
    requires AccessOriginsOk(cfg, w.ledger) && Issuable(cfg, w.ledger, hash, row, jwt, code)
    ensures AccessOriginsOk(cfg, StoreAccess(w, hash, row, jwt, code).ledger)
  {
    var l, m := w.ledger, StoreAccess(w, hash, row, jwt, code).ledger;
    forall h | h in m.access ensures AccessOriginOk(cfg, m, h) {
      if h != hash { assert AccessOriginOk(cfg, l, h); }
    }
    forall h, k | h in m.access && k in m.access && SameAccess(m.access[h], m.access[k]) ensures h == k {
      if h != hash { assert AccessOriginOk(cfg, l, h); }
      if k != hash { assert AccessOriginOk(cfg, l, k); }
      if h != hash && k != hash { assert SameAccess(l.access[h], l.access[k]); }
    }
  }

  lemma StoreAccessRows(w: World, hash: string, row: AccessToken, jwt: string, code: Option<string>)
    requires AccessOk(w.access, w.now, w.ledger) && hash !in w.ledger.access
    ensures var v := StoreAccess(w, hash, row, jwt, code); AccessOk(v.access, v.now, v.ledger)
  {
    var v := StoreAccess(w, hash, row, jwt, code);
    forall h | h in v.access ensures AccessRowOk(v.access, v.ledger, h) {
      if h != hash { assert AccessRowOk(w.access, w.ledger, h); }
    }
    forall h | h in v.ledger.access ensures GoneOnlyExpired(v.access, v.now, v.ledger, h) {
      if h != hash { assert GoneOnlyExpired(w.access, w.now, w.ledger, h); }
    }
  }

  lemma StoreAccessInv(cfg: Config, w: World, hash: string, row: AccessToken, jwt: string, code: Option<string>)
    requires Inv(cfg, w) && Issuable(cfg, w.ledger, hash, row, jwt, code)
    ensures Inv(cfg, StoreAccess(w, hash, row, jwt, code))
  {
    var v := StoreAccess(w, hash, row, jwt, code);
    SameGrants(cfg, w.codes, w.ledger, v.ledger);
    SameFamilies(w.ledger, v.ledger);
    StoreAccessOrigins(cfg, w, hash, row, jwt, code);
    StoreAccessRows(w, hash, row, jwt, code);
    forall h | h in v.ledger.refresh ensures RefreshOriginOk(v.ledger, h) { assert RefreshOriginOk(w.ledger, h); }
    SameRows(w.refresh, w.access, w.ledger, v.access, v.ledger);
  }

  /** A token that may be stored next: it links to an access token of the same code that no other refresh token has. */
  ghost predicate Linked(l: Ledger, hash: string, row: RefreshToken, o: RefreshOrigin) {
    && hash !in l.access && hash !in l.refresh && row.id !in l.ids
    && row.id == o.id && row.family == o.family && row.id != row.family
    && o.code in l.redeemed && o.code in l.codes
    && l.codes[o.code].client == row.client && l.codes[o.code].user == row.user
    && l.codes[o.code].scope == Some(row.scope)
    && row.scope != ""
    && o.access in l.access && l.access[o.access].code == Some(o.code)
    && row.access == Some(l.access[o.access].id)
    && (forall k :: k in l.refresh ==> l.refresh[k].access != o.access)
  }

  /** It is the first of a new family, whose code founded no family before. */
  ghost predicate Founds(l: Ledger, row: RefreshToken, o: RefreshOrigin) {
    && o.generation == 0 && o.parent.None? && row.previous.None?
    && o.family !in l.ids
    && (forall f :: f in l.families ==> l.families[f] != o.code)
  }

  /** It succeeds the newest token of its family, which is no longer usable. */
  ghost predicate Succeeds(t: RefreshTokens, l: Ledger, row: RefreshToken, o: RefreshOrigin) {
    && o.parent.Some? && o.parent.value in l.refresh
    && var p := l.refresh[o.parent.value];
       && p.family == o.family && p.code == o.code && p.generation == o.generation - 1
       && row.previous == Some(p.id)
       && (forall k :: k in l.refresh ==> !Newer(l.refresh[k], p))
       && (o.parent.value in t ==> t[o.parent.value].revoked && t[o.parent.value].usedAt.Some?)
  }

  lemma StoreRefreshFamilies(cfg: Config, w: World, hash: string, row: RefreshToken, o: RefreshOrigin)
    requires LedgerOk(cfg, w.ledger)
    requires Linked(w.ledger, hash, row, o)
    requires Founds(w.ledger, row, o) || Succeeds(w.refresh, w.ledger, row, o)
    ensures FamiliesOk(StoreRefresh(w, hash, row, o).ledger)
    ensures o.parent.Some? ==> StoreRefresh(w, hash, row, o).ledger.families == w.ledger.families
  {
    var l, m := w.ledger, StoreRefresh(w, hash, row, o).ledger;
    if o.parent.Some? {
      assert RefreshOriginOk(l, o.parent.value);
      assert m.families == l.families;
      SameFamilies(l, m);
    } else {
      forall f | f in m.families ensures FamilyOk(m, f) {
        if f != o.family { assert FamilyOk(l, f); }
      }
      forall f, g | f in m.families && g in m.families && ShareCode(m, f, g) ensures f == g {
        if f != o.family && g != o.family { assert ShareCode(l, f, g); }
      }
    }
  }

  lemma StoreRefreshOrigins(cfg: Config, w: World, hash: string, row: RefreshToken, o: RefreshOrigin)
    requires LedgerOk(cfg, w.ledger)
    requires Linked(w.ledger, hash, row, o)
    requires Founds(w.ledger, row, o) || Succeeds(w.refresh, w.ledger, row, o)
    ensures RefreshOriginsOk(StoreRefresh(w, hash, row, o).ledger)
  {
    var l, m := w.ledger, StoreRefresh(w, hash, row, o).ledger;
    if o.parent.Some? { assert RefreshOriginOk(l, o.parent.value); }
    forall h | h in m.refresh ensures RefreshOriginOk(m, h) {
      if h != hash {
        assert RefreshOriginOk(l, h);
        assert FamilyOk(l, l.refresh[h].family);
      }
    }
    forall h, k | h in m.refresh && k in m.refresh && SameSlot(m.refresh[h], m.refresh[k]) ensures h == k {
      NoSharedSlot(cfg, w, hash, row, o, h, k);
    }
  }

  lemma StoreRefreshLedger(cfg: Config, w: World, hash: string, row: RefreshToken, o: RefreshOrigin)
    requires LedgerOk(cfg, w.ledger) && CodesOk(w.codes, w.ledger)
    requires Linked(w.ledger, hash, row, o)
    requires Founds(w.ledger, row, o) || Succeeds(w.refresh, w.ledger, row, o)
    ensures var m := StoreRefresh(w, hash, row, o).ledger; LedgerOk(cfg, m) && CodesOk(w.codes, m)
  {
    var l, m := w.ledger, StoreRefresh(w, hash, row, o).ledger;
    SameGrants(cfg, w.codes, l, m);
    StoreRefreshFamilies(cfg, w, hash, row, o);
    StoreRefreshOrigins(cfg, w, hash, row, o);
    forall h | h in m.access ensures AccessOriginOk(cfg, m, h) { assert AccessOriginOk(cfg, l, h); }
  }

  lemma NoneShares(cfg: Config, w: World, hash: string, row: RefreshToken, o: RefreshOrigin, k: string)
    requires LedgerOk(cfg, w.ledger)
    requires Linked(w.ledger, hash, row, o)
    requires Founds(w.ledger, row, o) || Succeeds(w.refresh, w.ledger, row, o)
    requires k in w.ledger.refresh
    ensures !SameSlot(w.ledger.refresh[k], o) && !SameSlot(o, w.ledger.refresh[k])
  {
    var l := w.ledger;
    assert RefreshOriginOk(l, k);
    assert FamilyOk(l, l.refresh[k].family);
    if o.parent.Some? { assert !Newer(l.refresh[k], l.refresh[o.parent.value]); }
  }

  lemma NoSharedSlot(cfg: Config, w: World, hash: string, row: RefreshToken, o: RefreshOrigin, h: string, k: string)
    requires LedgerOk(cfg, w.ledger)
    requires Linked(w.ledger, hash, row, o)
    requires Founds(w.ledger, row, o) || Succeeds(w.refresh, w.ledger, row, o)
    requires var m := StoreRefresh(w, hash, row, o).ledger.refresh; h in m && k in m && SameSlot(m[h], m[k])
    ensures h == k
  {
    var l := w.ledger;
    if h != hash { NoneShares(cfg, w, hash, row, o, h); }
    if k != hash { NoneShares(cfg, w, hash, row, o, k); }
    if h != hash && k != hash { assert SameSlot(l.refresh[h], l.refresh[k]); }
  }

  lemma StoreRefreshRows(cfg: Config, w: World, hash: string, row: RefreshToken, o: RefreshOrigin)
    requires LedgerOk(cfg, w.ledger) && RefreshOk(w.refresh, w.access, w.ledger)
    requires Linked(w.ledger, hash, row, o)
    requires Founds(w.ledger, row, o) || Succeeds(w.refresh, w.ledger, row, o)
    ensures var v := StoreRefresh(w, hash, row, o); RefreshOk(v.refresh, v.access, v.ledger)
  {
    var v := StoreRefresh(w, hash, row, o);
    var l, m := w.ledger, v.ledger;
    forall h | h in v.refresh ensures RefreshRowOk(v.refresh, v.access, m, h) {
      if h != hash {
        assert RefreshRowOk(w.refresh, w.access, l, h);
        assert RefreshOriginOk(l, h);
      }
    }
    forall h, k | h in v.refresh && h in m.refresh && k in m.refresh && Newer(m.refresh[k], m.refresh[h])
      ensures v.refresh[h].revoked && v.refresh[h].usedAt.Some?
    {
      OlderIsUsed(cfg, w, hash, row, o, h, k);
    }
  }

  lemma NoneNewer(cfg: Config, w: World, hash: string, row: RefreshToken, o: RefreshOrigin, k: string)
    requires LedgerOk(cfg, w.ledger)
    requires Linked(w.ledger, hash, row, o)
    requires Founds(w.ledger, row, o) || Succeeds(w.refresh, w.ledger, row, o)
    requires k in w.ledger.refresh
    ensures !Newer(w.ledger.refresh[k], o)
  {
    var l := w.ledger;
    assert RefreshOriginOk(l, k);
    assert FamilyOk(l, l.refresh[k].family);
    if o.parent.Some? { assert !Newer(l.refresh[k], l.refresh[o.parent.value]); }
  }

  lemma OlderIsUsed(cfg: Config, w: World, hash: string, row: RefreshToken, o: RefreshOrigin, h: string, k: string)
    requires LedgerOk(cfg, w.ledger) && RefreshOk(w.refresh, w.access, w.ledger)
    requires Linked(w.ledger, hash, row, o)
    requires Founds(w.ledger, row, o) || Succeeds(w.refresh, w.ledger, row, o)
    requires var v := StoreRefresh(w, hash, row, o);
             h in v.refresh && h in v.ledger.refresh && k in v.ledger.refresh
             && Newer(v.ledger.refresh[k], v.ledger.refresh[h])
    ensures var v := StoreRefresh(w, hash, row, o); v.refresh[h].revoked && v.refresh[h].usedAt.Some?
  {
    var l := w.ledger;
    if h == hash {
      NoneNewer(cfg, w, hash, row, o, k);
    } else if k != hash {
      assert Newer(l.refresh[k], l.refresh[h]);
    } else {
      assert RefreshOriginOk(l, h);
      var p := o.parent.value;
      if h != p {
        assert !SameSlot(l.refresh[h], l.refresh[p]);
        assert Newer(l.refresh[p], l.refresh[h]);
      }
    }
  }

  lemma StoreRefreshInv(cfg: Config, w: World, hash: string, row: RefreshToken, o: RefreshOrigin)
    requires Inv(cfg, w)
    requires Linked(w.ledger, hash, row, o)
    requires Founds(w.ledger, row, o) || Succeeds(w.refresh, w.ledger, row, o)
    ensures Inv(cfg, StoreRefresh(w, hash, row, o))
  {
    StoreRefreshLedger(cfg, w, hash, row, o);
    StoreRefreshRows(cfg, w, hash, row, o);
    SameAccessRows(w.access, w.now, w.ledger, StoreRefresh(w, hash, row, o).ledger);
  }
}
