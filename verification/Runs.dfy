/** Runs of the token lifecycle, and what one event can do to the refresh tokens. */
module Runs {
  import opened Prelude
  import opened Tables
  import opened Lifecycle
  import opened Invariant
  import opened Preservation
  import S = SessionCookie

  // ---------- Runs ----------

  /** Event `e` happens in `w`, is answered by `r` and leads to `v`. */
  ghost predicate Transition(cfg: Config, w: World, e: Event, r: Response, v: World) {
    Admissible(cfg, w, e) && Step(cfg, w, e) == Outcome(v, r)
  }

  /** `worlds[i]` is the state before `events[i]`, whose answer is `replies[i]`. */
  datatype History = History(worlds: seq<World>, events: seq<Event>, replies: seq<Response>)

  ghost predicate Proceeds(cfg: Config, run: History, i: nat)
    requires i < |run.events| && |run.worlds| == |run.events| + 1 && |run.replies| == |run.events|
  {
    Transition(cfg, run.worlds[i], run.events[i], run.replies[i], run.worlds[i + 1])
  }

  /** Each event happens in the state the one before it led to. */
  ghost predicate Steps(cfg: Config, run: History) {
    && Lawful(cfg)
    && |run.worlds| == |run.events| + 1 && |run.replies| == |run.events|
    && forall i {:trigger Proceeds(cfg, run, i)} :: 0 <= i < |run.events| ==> Proceeds(cfg, run, i)
  }

  /** A run from any state that satisfies the invariant ... */
  ghost predicate Run(cfg: Config, run: History) {
    Steps(cfg, run) && Inv(cfg, run.worlds[0])
  }

  ghost predicate FromScratch(cfg: Config, run: History) {
    Steps(cfg, run) && Initial(run.worlds[0])
  }

  /** ... as an empty database does. */
  lemma ScratchIsRun(cfg: Config, run: History)
    requires FromScratch(cfg, run)
    ensures Run(cfg, run)
  {
    InitialInv(cfg, run.worlds[0]);
  }

  /** Every admissible event can happen: it extends the run by what `Step` makes of it. */
  lemma RunExtends(cfg: Config, run: History, e: Event)
    requires Run(cfg, run) && Admissible(cfg, run.worlds[|run.events|], e)
    ensures var o := Step(cfg, run.worlds[|run.events|], e);
            Run(cfg, History(run.worlds + [o.world], run.events + [e], run.replies + [o.response]))
  {
    var o := Step(cfg, run.worlds[|run.events|], e);
    var longer := History(run.worlds + [o.world], run.events + [e], run.replies + [o.response]);
    forall i | 0 <= i < |longer.events| ensures Proceeds(cfg, longer, i) {
      if i < |run.events| { assert Proceeds(cfg, run, i); }
    }
  }

  lemma TransitionInv(cfg: Config, w: World, e: Event, r: Response, v: World)
    requires Lawful(cfg) && Inv(cfg, w) && Transition(cfg, w, e, r, v)
    ensures Inv(cfg, v)
  {
    StepInv(cfg, w, e);
  }

  /** If the invariant holds in one state it holds in the next. */
  ghost predicate KeepsInv(cfg: Config, worlds: seq<World>, i: nat)
    requires i + 1 < |worlds|
  {
    Inv(cfg, worlds[i]) ==> Inv(cfg, worlds[i + 1])
  }

  lemma NextInv(cfg: Config, run: History, i: nat)
    requires Steps(cfg, run) && i < |run.events|
    ensures KeepsInv(cfg, run.worlds, i)
  {
    assert Proceeds(cfg, run, i);
    if Inv(cfg, run.worlds[i]) {
      TransitionInv(cfg, run.worlds[i], run.events[i], run.replies[i], run.worlds[i + 1]);
    }
  }

  lemma {:induction false} InvCarriesOn(cfg: Config, worlds: seq<World>, i: nat)
    requires i < |worlds| && Inv(cfg, worlds[0])
    requires forall k {:trigger KeepsInv(cfg, worlds, k)} :: 0 <= k < |worlds| - 1 ==> KeepsInv(cfg, worlds, k)
    ensures Inv(cfg, worlds[i])
  {
    if i == 0 {
    } else {
      InvCarriesOn(cfg, worlds, i - 1);
      assert KeepsInv(cfg, worlds, i - 1);
    }
  }

  /** The invariant holds at every point of every run. */
  lemma RunInv(cfg: Config, run: History, i: nat)
    requires Run(cfg, run) && i < |run.worlds|
    ensures Inv(cfg, run.worlds[i])
  {
    forall k | 0 <= k < |run.worlds| - 1 ensures KeepsInv(cfg, run.worlds, k) { NextInv(cfg, run, k); }
    InvCarriesOn(cfg, run.worlds, i);
  }

  // ---------- One event and the refresh tokens ----------

  predicate Live(w: World, h: string) {
    h in w.refresh && !w.refresh[h].revoked
  }

  /** A code exchange that handed out a refresh token to `user`. */
  predicate Grants(w: World, e: Event, r: Response, user: Id) {
    e.Exchange? && r.Tokens? && r.refresh.Some? && e.code in w.codes && w.codes[e.code].user == user
  }

  /** A rotation of `hash` that handed out new tokens. */
  predicate Rotates(cfg: Config, e: Event, r: Response, hash: string) {
    e.Rotate? && r.Tokens? && cfg.sha256(e.token) == hash
  }

  /** A row that was there before: same token, and no livelier than it was. */
  ghost predicate Kept(w: World, v: World, h: string) {
    && h in w.refresh && h in v.refresh
    && v.refresh[h].family == w.refresh[h].family && v.refresh[h].user == w.refresh[h].user
    && (w.refresh[h].revoked ==> v.refresh[h].revoked)
  }

  /** A row that was not there: the first of a new family, or the successor of a live token. */
  ghost predicate Added(cfg: Config, w: World, e: Event, r: Response, v: World, h: string) {
    && h in v.refresh && h !in w.ledger.refresh
    && (|| (Grants(w, e, r, v.refresh[h].user) && v.refresh[h].family !in w.ledger.ids)
        || (e.Rotate? && var p := cfg.sha256(e.token);
                         && Rotates(cfg, e, r, p) && Live(w, p)
                         && v.refresh[h].family == w.refresh[p].family && v.refresh[h].user == w.refresh[p].user))
  }

  /** Nothing new: every row was there before, and no token was issued. */
  ghost predicate NoneAdded(w: World, v: World) {
    && v.ledger.refresh == w.ledger.refresh && v.ledger.families == w.ledger.families
    && forall h :: h in v.refresh ==> Kept(w, v, h)
  }

  /** One refresh token more, under hash `h`; the other rows stay as they are in `t`. */
  ghost predicate OneMore(t: RefreshTokens, w: World, v: World, h: string) {
    && h in v.refresh && h in v.ledger.refresh
    && v.refresh == t[h := v.refresh[h]]
    && v.ledger.refresh == w.ledger.refresh[h := v.ledger.refresh[h]]
  }

  ghost predicate ExchangeEffect(cfg: Config, w: World, e: Event, o: Outcome)
    requires e.Exchange?
  {
    if o.response.Tokens? && o.response.refresh.Some? then
      var h := cfg.sha256(e.draws.token);
      && OneMore(w.refresh, w, o.world, h)
      && e.code in w.codes && w.codes[e.code].usedAt.None?
      && o.world.refresh[h].family == e.draws.family && o.world.refresh[h].user == w.codes[e.code].user
      && o.world.ledger.families == w.ledger.families[e.draws.family := e.code]
    else
      && o.world.refresh == w.refresh && o.world.ledger.refresh == w.ledger.refresh
      && o.world.ledger.families == w.ledger.families
  }

  /** Apart from access tokens, issuing for a code adds a refresh token of the new family or nothing. */
  lemma IssueForCodeEffect(cfg: Config, w: World, code: string, a: AuthorizationCode, d: Draws, faults: Faults)
    ensures var o := IssueForCode(cfg, w, code, a, d, faults);
            if o.response.Tokens? && o.response.refresh.Some? then
              var h := cfg.sha256(d.token);
              && OneMore(w.refresh, w, o.world, h)
              && o.world.refresh[h].family == d.family && o.world.refresh[h].user == a.user
              && o.world.ledger.families == w.ledger.families[d.family := code]
            else
              && o.world.refresh == w.refresh && o.world.ledger.refresh == w.ledger.refresh
              && o.world.ledger.families == w.ledger.families
  {}

  lemma ExchangeHasEffect(cfg: Config, w: World, e: Event)
    requires e.Exchange? && e.now == w.now
    ensures ExchangeEffect(cfg, w, e, ExchangeCode(cfg, w, e.code, e.client, e.secret, e.redirectUri, e.draws,
                                                   e.faults))
  {
    var o := ExchangeCode(cfg, w, e.code, e.client, e.secret, e.redirectUri, e.draws, e.faults);
    if o.world != w || o.response.Tokens? {
      var a := w.codes[e.code];
      IssueForCodeEffect(cfg, RedeemCode(w, e.code, a.id), e.code, a, e.draws, e.faults);
    }
  }

  ghost predicate RotateEffect(cfg: Config, w: World, e: Event, o: Outcome)
    requires e.Rotate?
  {
    var p, h := cfg.sha256(e.token), cfg.sha256(e.draws.token);
    if o.response.Tokens? then
      && Live(w, p)
      && OneMore(UseRefresh(w.refresh, w.refresh[p].id, w.now), w, o.world, h)
      && o.world.refresh[h].family == w.refresh[p].family && o.world.refresh[h].user == w.refresh[p].user
      && o.world.ledger.families == w.ledger.families[w.refresh[p].family := CodeOf(w.ledger, p)]
    else
      && o.world.ledger.refresh == w.ledger.refresh && o.world.ledger.families == w.ledger.families
      && (|| o.world.refresh == w.refresh
          || (p in w.refresh && o.world.refresh == UseRefresh(w.refresh, w.refresh[p].id, w.now))
          || (p in w.refresh && w.refresh[p].revoked
              && o.world.refresh == RevokeFamily(w.refresh, w.refresh[p].family, "replay_detected", w.now)))
  }

  lemma SuccessorEffect(cfg: Config, w: World, hash: string, r: RefreshToken, d: Draws, faults: Faults)
    ensures var o := IssueSuccessor(cfg, w, hash, r, d, faults);
            if o.response.Tokens? then
              var h := cfg.sha256(d.token);
              && OneMore(w.refresh, w, o.world, h)
              && o.world.refresh[h].family == r.family && o.world.refresh[h].user == r.user
              && o.world.ledger.families == w.ledger.families[r.family := CodeOf(w.ledger, hash)]
            else
              && o.world.refresh == w.refresh && o.world.ledger.refresh == w.ledger.refresh
              && o.world.ledger.families == w.ledger.families
  {}

  lemma ReplaceHasEffect(cfg: Config, w: World, e: Event)
    requires e.Rotate? && Live(w, cfg.sha256(e.token))
    ensures var p := cfg.sha256(e.token); RotateEffect(cfg, w, e,
                                                       ReplaceToken(cfg, w, p, w.refresh[p], e.draws, e.faults))
  {
    var p := cfg.sha256(e.token);
    var r := w.refresh[p];
    SuccessorEffect(cfg, w.(refresh := UseRefresh(w.refresh, r.id, w.now)), p, r, e.draws, e.faults);
  }

  lemma RotateHasEffect(cfg: Config, w: World, e: Event)
    requires e.Rotate? && e.now == w.now
    ensures RotateEffect(cfg, w, e, RotateToken(cfg, w, e.token, e.clientId, e.secret, e.draws, e.faults))
  {
    if Live(w, cfg.sha256(e.token)) { ReplaceHasEffect(cfg, w, e); }
  }

  lemma TightensKeeps(w: World, v: World)
    requires Tightens(w, v)
    ensures NoneAdded(w, v)
  {}

  /** No refresh token was issued, no family founded and no redirect URI approved. */
  ghost predicate SameRecord(l: Ledger, m: Ledger) {
    m.refresh == l.refresh && m.families == l.families && m.approved == l.approved
  }

  lemma CallbackKeeps(w: World, e: Event, redirectUri: string, scope: Option<string>)
    requires e.WebCallback?
    ensures var v := HandleProviderCallback(w, e.client, e.provider, redirectUri, scope, e.info, e.userId, e.codeId,
                                            e.code, e.faults).world;
            v.refresh == w.refresh && SameRecord(w.ledger, v.ledger)
  {
    if e.provider.Some? && e.info.Some? {
      var u := UpsertUser(w, e.provider.value.name, e.info.value, e.userId, e.faults);
      if u.Some? {
        IssueCodeKeeps(w, e.client, e.provider.value.id, redirectUri, scope, u.value.0, u.value.1, e.codeId, e.code,
                       e.faults);
      }
    }
  }

  lemma IssueCodeKeeps(w: World, client: Id, provider: Id, redirectUri: string, scope: Option<string>, user: Id,
                       users: map<Id, User>, codeId: Id, code: string, faults: Faults)
    ensures var v := IssueCodeTo(w, client, provider, redirectUri, scope, user, users, codeId, code, faults).world;
            v.refresh == w.refresh && SameRecord(w.ledger, v.ledger)
  {}

  lemma StartKeeps(cfg: Config, w: World, e: Event)
    requires e.WebLogin?
    ensures var v := StartWebLogin(cfg, w, e.client, e.providerName, e.provider, e.redirectUri, e.scope, e.state,
                                   e.faults).world;
            v.refresh == w.refresh && v.ledger.refresh == w.ledger.refresh && v.ledger.families == w.ledger.families
  {}

  lemma FinishKeeps(cfg: Config, w: World, e: Event)
    requires e.WebCallback?
    ensures var v := FinishWebLogin(cfg, w, e.client, e.providerName, e.provider, e.state, e.cookie, e.info, e.userId,
                                    e.codeId,
                                    e.code, e.faults).world;
            v.refresh == w.refresh && v.ledger.refresh == w.ledger.refresh && v.ledger.families == w.ledger.families
  {
    var decoded := S.DecodeSession(cfg.cookies, e.cookie);
    if decoded.Accepted? { CallbackKeeps(w, e, decoded.session.redirectUri, decoded.session.scope); }
  }

  lemma WebKeeps(cfg: Config, w: World, e: Event)
    requires e.now == w.now && (e.WebLogin? || e.WebCallback?)
    ensures var v := Step(cfg, w, e).world;
            v.refresh == w.refresh && v.ledger.refresh == w.ledger.refresh && v.ledger.families == w.ledger.families
  {
    if e.WebLogin? { StartKeeps(cfg, w, e); } else { FinishKeeps(cfg, w, e); }
  }

  lemma StoreLoginKeeps(cfg: Config, w: World, user: Id, jwt: string, d: Draws, faults: Faults)
    ensures var v := StoreLoginToken(cfg, w, user, jwt, d, faults).world;
            v.refresh == w.refresh && SameRecord(w.ledger, v.ledger)
  {}

  lemma LoginKeeps(cfg: Config, w: World, e: Event)
    requires e.now == w.now && e.Login?
    ensures var v := LoginUser(cfg, w, e.user, e.draws, e.faults).world;
            v.refresh == w.refresh && SameRecord(w.ledger, v.ledger)
  {
    if e.user in w.users {
      var jwt := GenerateAccessToken(cfg, e.user, w.users[e.user].email, w.now, e.draws.nonce);
      StoreLoginKeeps(cfg, w.(access := RevokeAccessOfUser(w.access, e.user)), e.user, jwt, e.draws, e.faults);
    }
  }

  lemma EndSessionsKeeps(cfg: Config, w: World, user: Id, email: string, d: Draws, faults: Faults)
    ensures var v := EndSessions(cfg, w, user, email, d, faults).world;
            && SameRecord(w.ledger, v.ledger)
            && v.refresh == if RevokeRefreshTokensByUser in faults then w.refresh
                            else RevokeRefreshOfUser(w.refresh, user, "password_change", w.now)
  {
    var w1 := if RevokeRefreshTokensByUser in faults then w
              else w.(refresh := RevokeRefreshOfUser(w.refresh, user, "password_change", w.now));
    StoreLoginKeeps(cfg, w1, user, GenerateAccessToken(cfg, user, email, w.now, d.nonce), d, faults);
  }

  lemma PasswordKeeps(cfg: Config, w: World, e: Event)
    requires e.now == w.now && e.ChangePassword?
    ensures var v := ChangeUserPassword(cfg, w, e.user, e.policyOk, e.newHash, e.draws, e.faults).world;
            && SameRecord(w.ledger, v.ledger)
            && (v.refresh == w.refresh || v.refresh == RevokeRefreshOfUser(w.refresh, e.user, "password_change", w.now))
  {
    if e.user in w.users {
      var u1 := PasswordSet(w.users, e.user, e.newHash);
      var u2 := FlagCleared(u1, e.user);
      EndSessionsKeeps(cfg, w.(users := u2), e.user, w.users[e.user].email, e.draws, e.faults);
    }
  }

  /** Only the token endpoint adds refresh tokens. */
  lemma OthersKeep(cfg: Config, w: World, e: Event, r: Response, v: World)
    requires Transition(cfg, w, e, r, v) && !e.Exchange? && !e.Rotate?
    ensures NoneAdded(w, v)
  {
    if OnlyTightens(e) {
      TighteningEvents(cfg, w, e);
      TightensKeeps(w, v);
    } else if e.WebLogin? || e.WebCallback? {
      WebKeeps(cfg, w.(now := e.now), e);
    } else if e.Login? {
      LoginKeeps(cfg, w.(now := e.now), e);
    } else {
      PasswordKeeps(cfg, w.(now := e.now), e);
    }
  }

  // ---------- The history only grows ----------

  ghost predicate Extends(l: Ledger, m: Ledger) {
    && l.ids <= m.ids && l.approved <= m.approved && l.redeemed <= m.redeemed
    && Within(l.codes, m.codes) && Within(l.access, m.access) && Within(l.refresh, m.refresh)
  }

  ghost predicate Within<V>(a: map<string, V>, b: map<string, V>) {
    forall k {:trigger a[k]} {:trigger b[k]} :: k in a ==> k in b && b[k] == a[k]
  }

  ghost predicate Grows(w: World, v: World) {
    w.now <= v.now && Extends(w.ledger, v.ledger)
  }

  lemma StoreCodeGrows(w: World, code: string, row: AuthorizationCode)
    requires code !in w.ledger.codes
    ensures Grows(w, StoreCode(w, code, row))
  {}

  lemma StoreAccessGrows(w: World, hash: string, row: AccessToken, jwt: string, code: Option<string>)
    requires hash !in w.ledger.access
    ensures Grows(w, StoreAccess(w, hash, row, jwt, code))
  {}

  lemma IssueForCodeExtends(cfg: Config, w: World, code: string, a: AuthorizationCode, d: Draws, faults: Faults)
    requires FreshToken(cfg, w.ledger, d) && FreshJwt(cfg, w, w.now, a.user, d)
    ensures Grows(w, IssueForCode(cfg, w, code, a, d, faults).world)
  {}

  lemma ExchangeExtends(cfg: Config, w: World, e: Event)
    requires e.Exchange? && e.now == w.now && Admissible(cfg, w, e)
    ensures Grows(w, ExchangeCode(cfg, w, e.code, e.client, e.secret, e.redirectUri, e.draws, e.faults).world)
  {
    if e.code in w.codes {
      var a := w.codes[e.code];
      IssueForCodeExtends(cfg, RedeemCode(w, e.code, a.id), e.code, a, e.draws, e.faults);
    }
  }

  lemma SuccessorExtends(cfg: Config, w: World, hash: string, r: RefreshToken, d: Draws, faults: Faults)
    requires FreshToken(cfg, w.ledger, d) && FreshJwt(cfg, w, w.now, r.user, d)
    ensures Grows(w, IssueSuccessor(cfg, w, hash, r, d, faults).world)
  {}

  lemma RotateExtends(cfg: Config, w: World, e: Event)
    requires e.Rotate? && e.now == w.now && Admissible(cfg, w, e)
    ensures Grows(w, RotateToken(cfg, w, e.token, e.clientId, e.secret, e.draws, e.faults).world)
  {
    var p, o := cfg.sha256(e.token), RotateToken(cfg, w, e.token, e.clientId, e.secret, e.draws, e.faults);
    if o.world != w && !w.refresh[p].revoked {
      var u := w.(refresh := UseRefresh(w.refresh, w.refresh[p].id, w.now));
      SuccessorExtends(cfg, u, p, w.refresh[p], e.draws, e.faults);
    }
  }

  lemma StoreLoginExtends(cfg: Config, w: World, user: Id, jwt: string, d: Draws, faults: Faults)
    requires cfg.sha256(jwt) !in w.ledger.access
    ensures Grows(w, StoreLoginToken(cfg, w, user, jwt, d, faults).world)
  {
    var h, row := cfg.sha256(jwt), LoginAccess(cfg, w, user, d);
    if StoreLoginToken(cfg, w, user, jwt, d, faults).world != w {
      StoreAccessGrows(w, h, row, jwt, None);
      assert StoreLoginToken(cfg, w, user, jwt, d, faults).world == StoreAccess(w, h, row, jwt, None);
    }
  }

  lemma LoginExtends(cfg: Config, w: World, e: Event)
    requires e.Login? && e.now == w.now && Admissible(cfg, w, e)
    ensures Grows(w, LoginUser(cfg, w, e.user, e.draws, e.faults).world)
  {
    if e.user in w.users {
      var jwt := GenerateAccessToken(cfg, e.user, w.users[e.user].email, w.now, e.draws.nonce);
      StoreLoginExtends(cfg, w.(access := RevokeAccessOfUser(w.access, e.user)), e.user, jwt, e.draws, e.faults);
    }
  }

  lemma EndSessionsExtends(cfg: Config, w: World, user: Id, email: string, d: Draws, faults: Faults)
    requires cfg.sha256(GenerateAccessToken(cfg, user, email, w.now, d.nonce)) !in w.ledger.access
    ensures Grows(w, EndSessions(cfg, w, user, email, d, faults).world)
  {
    StoreLoginExtends(cfg, w, user, GenerateAccessToken(cfg, user, email, w.now, d.nonce), d, faults);
    StoreLoginExtends(cfg, w.(refresh := RevokeRefreshOfUser(w.refresh, user, "password_change", w.now)), user,
                      GenerateAccessToken(cfg, user, email, w.now, d.nonce), d, faults);
  }

  lemma PasswordExtends(cfg: Config, w: World, e: Event)
    requires e.ChangePassword? && e.now == w.now && Admissible(cfg, w, e)
    ensures Grows(w, ChangeUserPassword(cfg, w, e.user, e.policyOk, e.newHash, e.draws, e.faults).world)
  {
    if e.user in w.users {
      var u1 := PasswordSet(w.users, e.user, e.newHash);
      var u2 := FlagCleared(u1, e.user);
      EndSessionsExtends(cfg, w.(users := u2), e.user, w.users[e.user].email, e.draws, e.faults);
    }
  }

  lemma IssueCodeExtends(w: World, client: Id, provider: Id, redirectUri: string, scope: Option<string>, user: Id,
                         users: map<Id, User>, codeId: Id, code: string, faults: Faults)
    requires code !in w.ledger.codes
    ensures Grows(w, IssueCodeTo(w, client, provider, redirectUri, scope, user, users, codeId, code, faults).world)
  {
    var row := AuthorizationCode(codeId, client, user, provider, redirectUri, scope, w.now + CODE_LIFETIME, None,
                                 false);
    StoreCodeGrows(w.(users := users), code, row);
  }

  lemma GrowsReflexive(w: World)
    ensures Grows(w, w)
  {}

  lemma CallbackExtends(w: World, e: Event, redirectUri: string, scope: Option<string>)
    requires e.WebCallback? && e.code !in w.ledger.codes
    ensures Grows(w, HandleProviderCallback(w, e.client, e.provider, redirectUri, scope, e.info, e.userId, e.codeId,
                                            e.code, e.faults).world)
  {
    GrowsReflexive(w);
    if e.provider.Some? && e.info.Some? {
      var u := UpsertUser(w, e.provider.value.name, e.info.value, e.userId, e.faults);
      if u.Some? {
        IssueCodeExtends(w, e.client, e.provider.value.id, redirectUri, scope, u.value.0, u.value.1, e.codeId, e.code,
                         e.faults);
      }
    }
  }

  lemma SignedGrows(w: World, approved: set<(Id, string)>, signed: map<string, S.Session>)
    requires w.ledger.approved <= approved
    ensures Grows(w, w.(ledger := w.ledger.(approved := approved, signed := signed)))
  {}

  lemma StartExtends(cfg: Config, w: World, e: Event)
    requires e.WebLogin?
    ensures Grows(w, StartWebLogin(cfg, w, e.client, e.providerName, e.provider, e.redirectUri, e.scope, e.state,
                                   e.faults).world)
  {
    GrowsReflexive(w);
    var session := S.Session(e.state, e.client, e.providerName, e.redirectUri, e.scope);
    SignedGrows(w, w.ledger.approved + {(e.client, e.redirectUri)},
                w.ledger.signed[S.Payload(cfg.cookies, session) := session]);
  }

  lemma FinishExtends(cfg: Config, w: World, e: Event)
    requires e.WebCallback? && e.code !in w.ledger.codes
    ensures Grows(w, FinishWebLogin(cfg, w, e.client, e.providerName, e.provider, e.state, e.cookie, e.info, e.userId,
                                    e.codeId, e.code, e.faults).world)
  {
    GrowsReflexive(w);
    var decoded := S.DecodeSession(cfg.cookies, e.cookie);
    if decoded.Accepted? { CallbackExtends(w, e, decoded.session.redirectUri, decoded.session.scope); }
  }

  lemma WebExtends(cfg: Config, w: World, e: Event)
    requires e.now == w.now && (e.WebLogin? || e.WebCallback?) && Admissible(cfg, w, e)
    ensures Grows(w, Step(cfg, w, e).world)
  {
    if e.WebLogin? { StartExtends(cfg, w, e); } else { FinishExtends(cfg, w, e); }
  }

  /** Whatever was ever stored stays on record, and the clock never goes back. */
  lemma HistoryGrows(cfg: Config, w: World, e: Event, r: Response, v: World)
    requires Transition(cfg, w, e, r, v)
    ensures Grows(w, v)
  {
    var u := w.(now := e.now);
    if OnlyTightens(e) { TighteningEvents(cfg, w, e); }
    else if e.Exchange? { ExchangeExtends(cfg, u, e); }
    else if e.Rotate? { RotateExtends(cfg, u, e); }
    else if e.Login? { LoginExtends(cfg, u, e); }
    else if e.ChangePassword? { PasswordExtends(cfg, u, e); }
    else { WebExtends(cfg, u, e); }
  }

  // ---------- The summary the theorems below rest on ----------

  ghost predicate Summary(cfg: Config, w: World, e: Event, r: Response, v: World) {
    && Extends(w.ledger, v.ledger)
    && (forall h :: h in v.refresh ==> Kept(w, v, h) || Added(cfg, w, e, r, v, h))
    && (forall h :: Rotates(cfg, e, r, h) ==> Live(w, h) && !Live(v, h))
    && (if e.Exchange? && r.Tokens? && r.refresh.Some? then
          e.code in w.codes && v.ledger.families == w.ledger.families[e.draws.family := e.code]
        else v.ledger.families == w.ledger.families)
  }

  lemma TokenEndpointSummary(cfg: Config, w: World, e: Event, r: Response, v: World)
    requires RefreshOk(w.refresh, w.access, w.ledger) && RefreshOriginsOk(w.ledger) && Extends(w.ledger, v.ledger)
    requires e.Exchange? || e.Rotate?
    requires FreshIds(w.ledger, e.draws) && FreshToken(cfg, w.ledger, e.draws)
    requires var u := w.(now := e.now);
             if e.Exchange? then ExchangeEffect(cfg, u, e, Outcome(v, r)) else RotateEffect(cfg, u, e, Outcome(v, r))
    ensures Summary(cfg, w, e, r, v)
  {
    forall h | h in v.refresh ensures Kept(w, v, h) || Added(cfg, w, e, r, v, h) {
      if h in w.refresh { assert RefreshRowOk(w.refresh, w.access, w.ledger, h); }
    }
    if e.Rotate? && r.Tokens? {
      var p := cfg.sha256(e.token);
      assert RefreshRowOk(w.refresh, w.access, w.ledger, p);
      assert RefreshOriginOk(w.ledger, p);
    }
  }

  lemma StepSummary(cfg: Config, w: World, e: Event, r: Response, v: World)
    requires Inv(cfg, w) && Transition(cfg, w, e, r, v)
    ensures Summary(cfg, w, e, r, v)
  {
    HistoryGrows(cfg, w, e, r, v);
    if e.Exchange? {
      ExchangeHasEffect(cfg, w.(now := e.now), e);
      TokenEndpointSummary(cfg, w, e, r, v);
    } else if e.Rotate? {
      RotateHasEffect(cfg, w.(now := e.now), e);
      TokenEndpointSummary(cfg, w, e, r, v);
    } else {
      OthersKeep(cfg, w, e, r, v);
    }
  }
}
