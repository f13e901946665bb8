/**
 What the administrators' calls change, row by row, and that a code they revoked is never redeemed,
 whatever happens afterwards.
 */
module Administration {
  import opened Prelude
  import opened Tables
  import opened Lifecycle
  import opened Invariant
  import opened Preservation
  import opened Runs
  import opened TokenTheorems
  import opened TokenAnswers
  import S = SessionCookie

  // ---------- The calls ----------

  /** A code is revoked by its id, if it is stored, and no other row changes. */
  lemma RevokeCodeEffect(cfg: Config, w: World, e: Event)
    requires e.AdminRevokeCode?
    ensures var o, stored := Step(cfg, w, e), exists c :: c in w.codes && w.codes[c].id == e.id;
            && (o.response == Failed(NotFound) <==> !stored && GetAuthorizationCode !in e.faults)
            && (o.response == Done <==> stored && e.faults !! {GetAuthorizationCode, SoleStatement})
            && o.world == w.(now := e.now, codes := o.world.codes)
            && (o.response != Done ==> o.world.codes == w.codes)
            && o.world.codes.Keys == w.codes.Keys
            && (o.response == Done ==> forall c :: c in w.codes ==>
                  o.world.codes[c] == if w.codes[c].id == e.id then w.codes[c].(revoked := true) else w.codes[c])
  {}

  /** The access tokens that an administrator's call is about. */
  predicate Targeted(e: Event, a: AccessToken) {
    || (e.AdminRevokeAccess? && a.id == e.id)
    || (e.RevokeUserSessions? && a.user == e.user)
    || (e.RevokeClientSessions? && a.client == Some(e.client))
  }

  /** Exactly those are revoked; a single token must be stored. */
  lemma RevokeAccessEffect(cfg: Config, w: World, e: Event)
    requires e.AdminRevokeAccess? || e.RevokeUserSessions? || e.RevokeClientSessions?
    ensures var o, found := Step(cfg, w, e), exists h :: h in w.access && Targeted(e, w.access[h]);
            && (o.response == Failed(NotFound) <==> e.AdminRevokeAccess? && !found && GetAccessTokenByID !in e.faults)
            && (o.response == Done <==> SoleStatement !in e.faults
                                        && (e.AdminRevokeAccess? ==> found && GetAccessTokenByID !in e.faults))
            && o.world == w.(now := e.now, access := o.world.access)
            && (o.response != Done ==> o.world.access == w.access)
            && o.world.access.Keys == w.access.Keys
            && (o.response == Done ==> forall h :: h in w.access ==>
                  o.world.access[h] == if Targeted(e, w.access[h]) then w.access[h].(revoked := true) else w.access[h])
  {}

  /** The live refresh tokens of a known user are revoked, with the time and the reason. */
  lemma RevokeRefreshEffect(cfg: Config, w: World, e: Event)
    requires e.AdminRevokeRefresh?
    ensures var o := Step(cfg, w, e);
            && (o.response == Failed(UserNotFound) <==> e.user !in w.users && GetUserByID !in e.faults)
            && (o.response == Done <==> e.user in w.users && e.faults !! {GetUserByID, SoleStatement})
            && o.world == w.(now := e.now, refresh := o.world.refresh)
            && (o.response != Done ==> o.world.refresh == w.refresh)
            && o.world.refresh.Keys == w.refresh.Keys
            && (o.response == Done ==> forall h :: h in w.refresh ==>
                  o.world.refresh[h] == if w.refresh[h].user != e.user || w.refresh[h].revoked then w.refresh[h]
                                        else w.refresh[h].(revoked := true, revokedAt := Some(e.now),
                                                           revokeReason := Some("admin_revoked")))
  {}

  /** Cleaning up codes, or deleting a provider, deletes exactly the expired codes or exactly the provider's. */
  lemma CodeCleanupEffect(cfg: Config, w: World, e: Event)
    requires e.CleanupExpiredCodes? || e.DeleteProvider?
    ensures var o := Step(cfg, w, e);
            && (o.response == Done <==> SoleStatement !in e.faults)
            && o.world == w.(now := e.now, codes := o.world.codes)
            && (o.response != Done ==> o.world.codes == w.codes)
            && (o.response == Done ==> forall c :: c in w.codes ==>
                  (c !in o.world.codes <==> if e.DeleteProvider? then w.codes[c].provider == e.providerId
                                            else w.codes[c].expiresAt < e.now))
            && (forall c :: c in o.world.codes ==> c in w.codes && o.world.codes[c] == w.codes[c])
  {}

  /** A refresh token after the tokens that expired are gone: only its link to a predecessor may be cleared. */
  predicate Purged(r: RefreshToken, kept: RefreshTokens, r': RefreshToken) {
    r' == r.(previous := if r.previous.Some? && RefreshStored(kept, r.previous.value) then r.previous else None)
  }

  /** The purge deletes exactly the expired refresh tokens, and clears exactly the links to them. */
  lemma PurgeEffect(cfg: Config, w: World, e: Event)
    requires e.PurgeExpiredRefreshTokens?
    ensures var o := Step(cfg, w, e);
            && (o.response == Done <==> SoleStatement !in e.faults)
            && o.world == w.(now := e.now, refresh := o.world.refresh)
            && (o.response != Done ==> o.world.refresh == w.refresh)
            && (o.response == Done ==> forall h :: h in w.refresh ==>
                  (h !in o.world.refresh <==> w.refresh[h].expiresAt < e.now))
            && (o.response == Done ==> forall h :: h in o.world.refresh ==>
                  h in w.refresh && Purged(w.refresh[h], o.world.refresh, o.world.refresh[h]))
  {
    var o := Step(cfg, w, e);
    var kept := map h | h in w.refresh && !(w.refresh[h].expiresAt < e.now) :: w.refresh[h];
    if o.response == Done {
      forall id ensures RefreshStored(kept, id) <==> RefreshStored(o.world.refresh, id) {
        if h :| h in kept && kept[h].id == id { assert o.world.refresh[h].id == id; }
      }
    }
  }

  // ---------- A revoked code is never redeemed ----------

  /** Codes are added only new, and none is un-revoked. */
  ghost predicate CodesKept(w: World, v: World) {
    forall c :: c in v.codes && c in w.ledger.codes ==>
      c in w.codes && (w.codes[c].revoked ==> v.codes[c].revoked)
  }

  lemma IssueForCodeKeepsCodes(cfg: Config, w: World, code: string, a: AuthorizationCode, d: Draws, faults: Faults)
    ensures IssueForCode(cfg, w, code, a, d, faults).world.codes == w.codes
  {}

  lemma ExchangeKeepsCodes(cfg: Config, w: World, e: Event)
    requires e.Exchange? && e.now == w.now
    ensures CodesKept(w, ExchangeCode(cfg, w, e.code, e.client, e.secret, e.redirectUri, e.draws, e.faults).world)
  {
    if e.code in w.codes {
      var a := w.codes[e.code];
      IssueForCodeKeepsCodes(cfg, RedeemCode(w, e.code, a.id), e.code, a, e.draws, e.faults);
    }
  }

  lemma SuccessorKeepsCodes(cfg: Config, w: World, hash: string, r: RefreshToken, d: Draws, faults: Faults)
    ensures IssueSuccessor(cfg, w, hash, r, d, faults).world.codes == w.codes
  {}

  lemma RotateKeepsCodes(cfg: Config, w: World, e: Event)
    requires e.Rotate? && e.now == w.now
    ensures RotateToken(cfg, w, e.token, e.clientId, e.secret, e.draws, e.faults).world.codes == w.codes
  {
    var h := cfg.sha256(e.token);
    if h in w.refresh {
      var r := w.refresh[h];
      SuccessorKeepsCodes(cfg, w.(refresh := UseRefresh(w.refresh, r.id, w.now)), h, r, e.draws, e.faults);
    }
  }

  lemma EndSessionsKeepsCodes(cfg: Config, w: World, user: Id, email: string, d: Draws, faults: Faults)
    ensures EndSessions(cfg, w, user, email, d, faults).world.codes == w.codes
  {}

  lemma PasswordKeepsCodes(cfg: Config, w: World, e: Event)
    requires e.ChangePassword? && e.now == w.now
    ensures ChangeUserPassword(cfg, w, e.user, e.policyOk, e.newHash, e.draws, e.faults).world.codes == w.codes
  {
    if e.user in w.users {
      var users := FlagCleared(PasswordSet(w.users, e.user, e.newHash), e.user);
      EndSessionsKeepsCodes(cfg, w.(users := users), e.user, w.users[e.user].email, e.draws, e.faults);
    }
  }

  lemma CallbackAddsOne(w: World, e: Event, s: S.Session)
    requires e.WebCallback?
    ensures var v := HandleProviderCallback(w, e.client, e.provider, s.redirectUri, s.scope, e.info, e.userId, e.codeId,
                                            e.code, e.faults).world;
            v.codes == w.codes || (e.code in v.codes && v.codes == w.codes[e.code := v.codes[e.code]])
  {}

  lemma WebKeepsCodes(cfg: Config, w: World, e: Event)
    requires e.now == w.now && (e.WebLogin? || e.WebCallback?) && Admissible(cfg, w, e) && Inv(cfg, w)
    ensures CodesKept(w, Step(cfg, w, e).world)
  {
    if e.WebCallback? {
      var d := S.DecodeSession(cfg.cookies, e.cookie);
      if d.Accepted? { CallbackAddsOne(w, e, d.session); }
    }
  }

  lemma StepKeepsCodes(cfg: Config, w: World, e: Event, r: Response, v: World)
    requires Transition(cfg, w, e, r, v) && Inv(cfg, w)
    ensures CodesKept(w, v)
  {
    var u := w.(now := e.now);
    ClockInv(cfg, w, e.now);
    if OnlyTightens(e) { TighteningEvents(cfg, w, e); }
    else if e.Exchange? { ExchangeKeepsCodes(cfg, u, e); }
    else if e.Rotate? { RotateKeepsCodes(cfg, u, e); }
    else if e.ChangePassword? { PasswordKeepsCodes(cfg, u, e); }
    else if !e.Login? { WebKeepsCodes(cfg, u, e); }
  }

  /** An issued code that is not stored unrevoked. */
  predicate CodeDead(w: World, c: string) {
    c in w.ledger.codes && (c in w.codes ==> w.codes[c].revoked)
  }

  lemma DeadCodeIsKept(cfg: Config, run: History, i: nat, c: string)
    requires Run(cfg, run) && 0 < i < |run.worlds| && CodeDead(run.worlds[i - 1], c)
    ensures CodeDead(run.worlds[i], c)
  {
    RunInv(cfg, run, i - 1);
    assert Proceeds(cfg, run, i - 1);
    StepKeepsCodes(cfg, run.worlds[i - 1], run.events[i - 1], run.replies[i - 1], run.worlds[i]);
    HistoryGrows(cfg, run.worlds[i - 1], run.events[i - 1], run.replies[i - 1], run.worlds[i]);
  }

  lemma {:induction false} DeadCodeStaysDead(cfg: Config, run: History, i: nat, j: nat, c: string)
    requires Run(cfg, run) && i <= j < |run.worlds| && CodeDead(run.worlds[i], c)
    ensures CodeDead(run.worlds[j], c)
  {
    if i == j {
    } else {
      DeadCodeStaysDead(cfg, run, i, j - 1, c);
      DeadCodeIsKept(cfg, run, j, c);
    }
  }

  /** Once a code is revoked no exchange of it is ever answered with tokens, even after cleanup has deleted its row. */
  lemma RevokedCodeNeverRedeemed(cfg: Config, run: History, i: nat, j: nat, c: string)
    requires Run(cfg, run) && i <= j < |run.events|
    requires c in run.worlds[i].codes && run.worlds[i].codes[c].revoked
    ensures !Redeems(run.events[j], run.replies[j], c)
  {
    RunInv(cfg, run, i);
    StoredIsRecorded(cfg, run.worlds[i], c);
    DeadCodeStaysDead(cfg, run, i, j, c);
    TokensIff(cfg, run, j);
  }
}
