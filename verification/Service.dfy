/**
 The calls that write the token tables, as the code makes them: statement by
 statement on a repository whose tables change in place, with early returns. Each is
 proved to do what its function in `Lifecycle` says, so the theorems about runs apply to it.
 */
module Service {
  import opened Prelude
  import opened Tables
  import opened Lifecycle
  import Invariant
  import opened TokenAnswers

  /** The tables behind `repository.Querier`. The ledger is history, not storage. */
  class Repository {
    var now: Time
    var clients: map<Id, Client>
    var users: map<Id, User>
    var codes: Codes
    var access: AccessTokens
    var refresh: RefreshTokens
    ghost var ledger: Ledger

    ghost function State(): (w: World)
      reads this
    {
      World(now, clients, users, codes, access, refresh, ledger)
    }

    constructor (w: World)
      ensures State() == w
    {
      now, clients, users := w.now, w.clients, w.users;
      codes, access, refresh, ledger := w.codes, w.access, w.refresh, w.ledger;
    }

    // Each statement either fails and changes nothing, or has its effect.

    method MarkAuthorizationCodeUsed(code: string, id: Id, fails: bool) returns (ok: bool)
      modifies this`codes, this`ledger
      ensures ok == !fails
      ensures State() == if ok then RedeemCode(old(State()), code, id) else old(State())
    {
      if fails { return false; }
      codes := UseCode(codes, id, now);
      ledger := ledger.(redeemed := ledger.redeemed + {code});
      ok := true;
    }

    method CreateAccessToken(hash: string, row: AccessToken, fails: bool, ghost jwt: string, ghost code: Option<string>)
      returns (ok: bool)
      modifies this`access, this`ledger
      ensures ok == !(fails || hash in old(access))
      ensures State() == if ok then StoreAccess(old(State()), hash, row, jwt, code) else old(State())
    {
      if fails || hash in access { return false; }
      access := access[hash := row];
      ledger := ledger.(
        ids := ledger.ids + {row.id},
        access := ledger.access[hash := AccessOrigin(row.id, jwt, row.client, row.user, row.scope, row.expiresAt,
                                                     code)]);
      ok := true;
    }

    method CreateRefreshToken(hash: string, row: RefreshToken, fails: bool, ghost origin: RefreshOrigin)
      returns (ok: bool)
      modifies this`refresh, this`ledger
      ensures ok == !(fails || hash in old(refresh))
      ensures State() == if ok then StoreRefresh(old(State()), hash, row, origin) else old(State())
    {
      if fails || hash in refresh { return false; }
      refresh := refresh[hash := row];
      ledger := ledger.(
        ids := ledger.ids + {row.id, row.family},
        families := ledger.families[origin.family := origin.code],
        refresh := ledger.refresh[hash := origin]);
      ok := true;
    }

    method MarkRefreshTokenUsed(id: Id, fails: bool) returns (ok: bool)
      modifies this`refresh
      ensures ok == !fails
      ensures refresh == if ok then UseRefresh(old(refresh), id, now) else old(refresh)
      ensures refresh.Keys == old(refresh).Keys
      ensures forall h :: h in refresh && (fails || refresh[h].id != id) ==> refresh[h] == old(refresh)[h]
      ensures ok ==>
                forall h :: h in refresh && refresh[h].id == id ==> refresh[h].revoked && refresh[h].usedAt == Some(now)
    {
      if fails { return false; }
      refresh := UseRefresh(refresh, id, now);
      ok := true;
    }

    method RevokeRefreshToken(id: Id, reason: string, fails: bool) returns (ok: bool)
      modifies this`refresh
      ensures ok == !fails
      ensures refresh == if ok then RevokeRefresh(old(refresh), id, reason, now) else old(refresh)
    {
      if fails { return false; }
      refresh := RevokeRefresh(refresh, id, reason, now);
      ok := true;
    }

    method RevokeRefreshTokenFamily(family: Id, reason: string, fails: bool) returns (ok: bool)
      modifies this`refresh
      ensures ok == !fails
      ensures refresh == if ok then RevokeFamily(old(refresh), family, reason, now) else old(refresh)
      ensures refresh.Keys == old(refresh).Keys
      ensures forall h :: h in refresh && (fails || refresh[h].family != family) ==> refresh[h] == old(refresh)[h]
      ensures ok ==> forall h :: h in refresh && refresh[h].family == family ==> refresh[h].revoked
    {
      if fails { return false; }
      refresh := RevokeFamily(refresh, family, reason, now);
      ok := true;
    }

    method RevokeRefreshTokensByUser(user: Id, reason: string, fails: bool) returns (ok: bool)
      modifies this`refresh
      ensures ok == !fails
      ensures refresh == if ok then RevokeRefreshOfUser(old(refresh), user, reason, now) else old(refresh)
    {
      if fails { return false; }
      refresh := RevokeRefreshOfUser(refresh, user, reason, now);
      ok := true;
    }

    method RevokeAccessToken(id: Id, fails: bool) returns (ok: bool)
      modifies this`access
      ensures ok == !fails
      ensures access == if ok then RevokeAccess(old(access), id) else old(access)
    {
      if fails { return false; }
      access := RevokeAccess(access, id);
      ok := true;
    }

    method RevokeAccessTokensByUser(user: Id, fails: bool) returns (ok: bool)
      modifies this`access
      ensures ok == !fails
      ensures access == if ok then RevokeAccessOfUser(old(access), user) else old(access)
    {
      if fails { return false; }
      access := RevokeAccessOfUser(access, user);
      ok := true;
    }

    method DeleteExpiredAuthorizationCodes(fails: bool) returns (ok: bool)
      modifies this`codes
      ensures ok == !fails
      ensures codes == if ok then DropExpiredCodes(old(codes), now) else old(codes)
    {
      if fails { return false; }
      codes := DropExpiredCodes(codes, now);
      ok := true;
    }

    /** The foreign key clears the links of refresh tokens whose access token goes. */
    method DeleteExpiredAccessTokens(fails: bool) returns (ok: bool)
      modifies this`access, this`refresh
      ensures ok == !fails
      ensures State() == if ok then CleanAccess(old(State())) else old(State())
      ensures ok ==> forall h :: h in access <==> h in old(access) && now <= old(access)[h].expiresAt
      ensures forall h :: h in access ==> access[h] == old(access)[h]
      ensures refresh.Keys == old(refresh).Keys
      ensures ok ==>
                forall h :: h in refresh && refresh[h].access.Some? ==> AccessStored(access, refresh[h].access.value)
    {
      if fails { return false; }
      access := DropExpiredAccess(access, now);
      refresh := ClearAccessLinks(refresh, access);
      ok := true;
    }

    method CreateAuthorizationCode(code: string, row: AuthorizationCode, fails: bool) returns (ok: bool)
      modifies this`codes, this`ledger
      ensures ok == !(fails || code in old(codes))
      ensures State() == if ok then StoreCode(old(State()), code, row) else old(State())
    {
      if fails || code in codes { return false; }
      codes := codes[code := row];
      ledger := ledger.(
        ids := ledger.ids + {row.id},
        codes := ledger.codes[code := Grant(row.client, row.user, row.redirectUri, row.scope)]);
      ok := true;
    }

    method UpdateUser(user: Id, row: User, fails: bool) returns (ok: bool)
      modifies this`users
      ensures ok == !fails
      ensures users == if ok then old(users)[user := row] else old(users)
    {
      if fails { return false; }
      users := users[user := row];
      ok := true;
    }

    /** GetAccessTokenByID. */
    method GetAccessTokenByID(id: Id) returns (found: Option<AccessToken>)
      ensures found.Some? <==> AccessStored(access, id)
      ensures found.Some? ==> found.value.id == id && exists h :: h in access && access[h] == found.value
    {
      if exists h :: h in access && access[h].id == id {
        var h :| h in access && access[h].id == id;
        found := Some(access[h]);
      } else {
        found := None;
      }
    }
  }

  /** `id` is the primary key of access_tokens. */
  predicate AccessIdsUnique(t: AccessTokens) {
    forall h, k :: h in t && k in t && t[h].id == t[k].id ==> h == k
  }

  /** ... and stays so in every reachable state. */
  lemma IdsStayUnique(cfg: Config, w: World)
    requires Invariant.Inv(cfg, w)
    ensures AccessIdsUnique(w.access)
  {
    forall h, k | h in w.access && k in w.access && w.access[h].id == w.access[k].id ensures h == k {
      assert Invariant.AccessRowOk(w.access, w.ledger, h);
      assert Invariant.AccessRowOk(w.access, w.ledger, k);
      assert Invariant.SameAccess(w.ledger.access[h], w.ledger.access[k]);
    }
  }

  method AuthenticateClient(cfg: Config, repo: Repository, client: Id, secret: string, faults: Faults)
    returns (e: Option<Error>)
    ensures e == ClientError(cfg, repo.State(), client, secret, faults)
    ensures e.None? <==> GetClient !in faults && Authentic(cfg, repo.State(), client, secret)
  {
    if GetClient in faults { return Some(ServerError); }
    if client !in repo.clients { return Some(ClientNotFound); }
    var row := repo.clients[client];
    if !row.active { return Some(ClientInactive); }
    if row.secretHash != cfg.sha256(secret) { return Some(InvalidClientSecret); }
    return None;
  }

  method ExchangeCodeForToken(cfg: Config, repo: Repository, code: string, client: Id, secret: string,
                              redirectUri: string,
                              draws: Draws, faults: Faults) returns (resp: Response)
    modifies repo
    ensures Outcome(repo.State(), resp) == ExchangeCode(cfg, old(repo.State()), code, client, secret, redirectUri,
                                                        draws, faults)
    ensures resp.Tokens? ==> Authentic(cfg, old(repo.State()), client, secret)
                             && Redeemable(old(repo.State()), code, client, redirectUri, repo.now)
  {
    var clientError := AuthenticateClient(cfg, repo, client, secret, faults);
    if clientError.Some? { return Failed(clientError.value); }
    if GetAuthorizationCode in faults { return Failed(ServerError); }
    if code !in repo.codes { return Failed(CodeNotFound); }
    var a := repo.codes[code];
    if a.revoked { return Failed(CodeRevoked); }
    if a.usedAt.Some? { return Failed(CodeUsed); }
    if repo.now > a.expiresAt { return Failed(CodeExpired); }
    if a.client != client { return Failed(CodeClientMismatch); }
    if a.redirectUri != redirectUri { return Failed(CodeRedirectMismatch); }
    var ok := repo.MarkAuthorizationCodeUsed(code, a.id, MarkAuthorizationCodeUsed in faults);
    if !ok { return Failed(ServerError); }
    resp := IssueTokensForCode(cfg, repo, code, a, draws, faults);
  }

  method IssueTokensForCode(cfg: Config, repo: Repository, code: string, a: AuthorizationCode, draws: Draws,
                            faults: Faults)
    returns (resp: Response)
    modifies repo
    ensures Outcome(repo.State(), resp) == IssueForCode(cfg, old(repo.State()), code, a, draws, faults)
  {
    if GetUserByID in faults || a.user !in repo.users { return Failed(ServerError); }
    if SignAccessToken in faults { return Failed(ServerError); }
    var jwt := GenerateAccessToken(cfg, a.user, repo.users[a.user].email, repo.now, draws.nonce);
    var row := AccessToken(draws.accessId, Some(a.client), a.user, a.scope, repo.now + cfg.accessLifetime, false);
    var ok := repo.CreateAccessToken(cfg.sha256(jwt), row, CreateAccessToken in faults, jwt, Some(code));
    if !ok { return Failed(ServerError); }
    var granted := if a.scope.Some? then a.scope.value else "";
    var rawRefreshToken: Option<string> := None;
    if a.client in repo.clients && repo.clients[a.client].allowRefreshTokens && Contains(granted, "offline_access") {
      if GenerateToken in faults { return Failed(ServerError); }
      var rt := RefreshToken(draws.refreshId, draws.family, a.client, a.user, Some(row.id), None, granted,
                             repo.now + cfg.refreshLifetime, false, None, None, None);
      ok := repo.CreateRefreshToken(cfg.sha256(draws.token), rt, CreateRefreshToken in faults,
                                    RefreshOrigin(rt.id, rt.family, 0, None, cfg.sha256(jwt), code));
      if !ok { return Failed(ServerError); }
      rawRefreshToken := Some(draws.token);
    }
    return Tokens(jwt, a.scope, rawRefreshToken);
  }

  method RotateRefreshToken(cfg: Config, repo: Repository, token: string, clientId: Option<Id>, secret: string,
                            draws: Draws, faults: Faults) returns (resp: Response)
    modifies repo
    ensures Outcome(repo.State(), resp) == RotateToken(cfg, old(repo.State()), token, clientId, secret, draws, faults)
    ensures resp.Tokens? ==> clientId.Some? && Authentic(cfg, old(repo.State()), clientId.value, secret)
                             && Rotatable(old(repo.State()), cfg.sha256(token), clientId.value, repo.now)
  {
    if clientId.None? { return Failed(InvalidGrant); }
    var cid := clientId.value;
    var clientError := AuthenticateClient(cfg, repo, cid, secret, faults);
    if clientError.Some? { return Failed(clientError.value); }
    var hash := cfg.sha256(token);
    if GetRefreshTokenByHash in faults { return Failed(ServerError); }
    if hash !in repo.refresh { return Failed(InvalidGrant); }
    var record := repo.refresh[hash];
    if record.revoked {
      var _ := repo.RevokeRefreshTokenFamily(record.family, "replay_detected", RevokeRefreshTokenFamily in faults);
      return Failed(InvalidGrant);
    }
    if repo.now > record.expiresAt { return Failed(TokenExpired); }
    if record.client != cid { return Failed(InvalidGrant); }
    var ok := repo.MarkRefreshTokenUsed(record.id, MarkRefreshTokenUsed in faults);
    if !ok { return Failed(ServerError); }
    resp := IssueTokensForRefresh(cfg, repo, hash, record, draws, faults);
  }

  method IssueTokensForRefresh(cfg: Config, repo: Repository, hash: string, record: RefreshToken, draws: Draws,
                               faults: Faults)
    returns (resp: Response)
    modifies repo
    ensures Outcome(repo.State(), resp) == IssueSuccessor(cfg, old(repo.State()), hash, record, draws, faults)
  {
    if GetUserByID in faults || record.user !in repo.users { return Failed(ServerError); }
    if SignAccessToken in faults { return Failed(ServerError); }
    var jwt := GenerateAccessToken(cfg, record.user, repo.users[record.user].email, repo.now, draws.nonce);
    var row := AccessToken(draws.accessId, Some(record.client), record.user, StrPtr(record.scope),
                           repo.now + cfg.accessLifetime, false);
    var ok := repo.CreateAccessToken(cfg.sha256(jwt), row, CreateAccessToken in faults, jwt,
                                     Some(CodeOf(repo.ledger, hash)));
    if !ok { return Failed(ServerError); }
    if GenerateToken in faults { return Failed(ServerError); }
    var next := RefreshToken(draws.refreshId, record.family, record.client, record.user, Some(row.id), Some(record.id),
                             record.scope, repo.now + cfg.refreshLifetime, false, None, None, None);
    ok := repo.CreateRefreshToken(cfg.sha256(draws.token), next, CreateRefreshToken in faults,
                                  RefreshOrigin(next.id, next.family, GenerationOf(repo.ledger, hash) + 1, Some(hash),
                                                cfg.sha256(jwt), CodeOf(repo.ledger, hash)));
    if !ok { return Failed(ServerError); }
    return Tokens(jwt, StrPtr(record.scope), Some(draws.token));
  }

  method RevokePresentedToken(cfg: Config, repo: Repository, token: string, hint: string, faults: Faults)
    returns (resp: Response)
    requires AccessIdsUnique(repo.access)
    modifies repo
    ensures Outcome(repo.State(), resp) == RevokeAnyToken(cfg, old(repo.State()), token, hint, faults)
  {
    var hash := cfg.sha256(token);
    if hint != "access_token" {
      if GetRefreshTokenByHash in faults { return Failed(ServerError); }
      if hash in repo.refresh {
        resp := RevokeRefreshTokenAndLinkedAccess(repo, repo.refresh[hash], faults);
        return;
      }
    }
    if GetAccessToken in faults { return Failed(ServerError); }
    if hash !in repo.access { return Done; }
    resp := RevokeAccessTokenRecord(repo, repo.access[hash], faults);
  }

  /** The revocation endpoint. */
  method HandleRevocation(cfg: Config, repo: Repository, caller: Caller, token: string, hint: string, faults: Faults)
    returns (resp: Response)
    requires AccessIdsUnique(repo.access)
    modifies repo
    ensures Outcome(repo.State(), resp) == RevokeRequest(cfg, old(repo.State()), caller, token, hint, faults)
    ensures resp == if Known(cfg, old(repo.State()), caller, repo.now, faults) then Done else Failed(Unauthorized)
    ensures resp != Done ==> repo.State() == old(repo.State())
  {
    match caller {
      case Basic(client, secret) =>
        if client.None? { return Failed(Unauthorized); }
        var clientError := AuthenticateClient(cfg, repo, client.value, secret, faults);
        if clientError.Some? { return Failed(Unauthorized); }
      case Bearer(jwt) =>
        if jwt == "" { return Failed(Unauthorized); }
        var admitted := CheckBearer(cfg, repo, jwt, faults);
        if !admitted.Admitted? { return Failed(Unauthorized); }
      case Nobody => return Failed(Unauthorized);
    }
    if token == "" { return Done; }
    var _ := RevokePresentedToken(cfg, repo, token, hint, faults);
    return Done;
  }

  method CheckBearer(cfg: Config, repo: Repository, jwt: string, faults: Faults) returns (resp: Response)
    ensures resp == Admit(cfg, repo.State(), jwt, faults)
  {
    var claims := cfg.verify(jwt);
    if claims.None? || !(repo.now < claims.value.expiresAt) || repo.now < claims.value.notBefore {
      return Failed(Unauthorized);
    }
    if GetAccessToken in faults { return Failed(ServerError); }
    var hash := cfg.sha256(jwt);
    if hash in repo.access && repo.access[hash].revoked { return Failed(Unauthorized); }
    return Admitted(claims.value.user);
  }

  method RevokeAccessTokenRecord(repo: Repository, a: AccessToken, faults: Faults) returns (resp: Response)
    modifies repo`access
    ensures Outcome(repo.State(), resp) == RevokeAccessRecord(old(repo.State()), a, faults)
  {
    if a.revoked { return Done; }
    var ok := repo.RevokeAccessToken(a.id, RevokeAccessToken in faults);
    if !ok { return Failed(ServerError); }
    return Done;
  }

  method RevokeRefreshTokenAndLinkedAccess(repo: Repository, r: RefreshToken, faults: Faults) returns (resp: Response)
    requires AccessIdsUnique(repo.access)
    modifies repo
    ensures Outcome(repo.State(), resp) == RevokeRefreshAndLinked(old(repo.State()), r, faults)
  {
    if r.revoked { return Done; }
    var ok := repo.RevokeRefreshToken(r.id, "client_revoked", RevokeRefreshToken in faults);
    if !ok { return Failed(ServerError); }
    if r.access.Some? {
      if GetAccessTokenByID in faults { return Failed(ServerError); }
      var at := repo.GetAccessTokenByID(r.access.value);
      if at.Some? {
        ghost var before := repo.access;
        var _ := RevokeAccessTokenRecord(repo, at.value, faults);
        assert at.value.revoked ==> RevokeAccess(before, at.value.id) == before;
      } else {
        assert RevokeAccess(repo.access, r.access.value) == repo.access;
      }
    }
    return Done;
  }

  method LogoutCaller(cfg: Config, repo: Repository, token: string, faults: Faults) returns (resp: Response)
    modifies repo
    ensures Outcome(repo.State(), resp) == LogoutUser(cfg, old(repo.State()), token, faults)
  {
    var admitted := CheckBearer(cfg, repo, token, faults);
    if !admitted.Admitted? { return admitted; }
    var hash := cfg.sha256(token);
    if hash in repo.access {
      var _ := repo.RevokeAccessToken(repo.access[hash].id, RevokeAccessToken in faults);
    }
    var _ := repo.RevokeRefreshTokensByUser(admitted.user, "logout", RevokeRefreshTokensByUser in faults);
    return Done;
  }

  method StoreDirectLoginToken(cfg: Config, repo: Repository, user: Id, jwt: string, draws: Draws, faults: Faults)
    returns (resp: Response)
    modifies repo
    ensures Outcome(repo.State(), resp) == StoreLoginToken(cfg, old(repo.State()), user, jwt, draws, faults)
  {
    var row := AccessToken(draws.accessId, None, user, None, repo.now + cfg.accessLifetime, false);
    var ok := repo.CreateAccessToken(cfg.sha256(jwt), row, CreateAccessToken in faults, jwt, None);
    if !ok { return Failed(ServerError); }
    return Tokens(jwt, None, None);
  }

  method LoginVerified(cfg: Config, repo: Repository, user: Id, draws: Draws, faults: Faults) returns (resp: Response)
    modifies repo
    ensures Outcome(repo.State(), resp) == LoginUser(cfg, old(repo.State()), user, draws, faults)
    ensures resp == Challenge <==>
              user in repo.users && repo.users[user].forcePasswordChange && SignChallengeToken !in faults
    ensures resp.Tokens? ==>
              forall h :: h in old(repo.access) && old(repo.access)[h].user == user ==> repo.access[h].revoked
  {
    if user !in repo.users { return Failed(Unauthorized); }
    if repo.users[user].forcePasswordChange {
      if SignChallengeToken in faults { return Failed(ServerError); }
      return Challenge;
    }
    if SignAccessToken in faults { return Failed(ServerError); }
    var jwt := GenerateAccessToken(cfg, user, repo.users[user].email, repo.now, draws.nonce);
    var ok := repo.RevokeAccessTokensByUser(user, RevokeAccessTokensByUser in faults);
    if !ok { return Failed(ServerError); }
    resp := StoreDirectLoginToken(cfg, repo, user, jwt, draws, faults);
  }

  method ChangePasswordOf(cfg: Config, repo: Repository, user: Id, policyOk: bool, newHash: string, draws: Draws,
                          faults: Faults)
    returns (resp: Response)
    modifies repo
    ensures Outcome(repo.State(), resp) == ChangeUserPassword(cfg, old(repo.State()), user, policyOk, newHash, draws,
                                                              faults)
    ensures resp.Tokens? ==>
              && user in old(repo.users) && old(repo.users)[user].forcePasswordChange && policyOk
              && repo.users == old(repo.users)[user := old(repo.users)[user].(passwordHash := Some(newHash),
                                                                              forcePasswordChange := false)]
  {
    if GetUserByID in faults { return Failed(ServerError); }
    if user !in repo.users { return Failed(UserNotFound); }
    var row := repo.users[user];
    if !row.forcePasswordChange { return Failed(PasswordChangeSatisfied); }
    if !policyOk { return Failed(BadPassword); }
    var ok := repo.UpdateUser(user, row.(passwordHash := Some(newHash)), UpdatePasswordHash in faults);
    if !ok { return Failed(ServerError); }
    ok := repo.UpdateUser(user, repo.users[user].(forcePasswordChange := false), SetForcePasswordChange in faults);
    if !ok { return Failed(ServerError); }
    var _ := repo.RevokeRefreshTokensByUser(user, "password_change", RevokeRefreshTokensByUser in faults);
    if SignAccessToken in faults { return Failed(ServerError); }
    var jwt := GenerateAccessToken(cfg, user, row.email, repo.now, draws.nonce);
    resp := StoreDirectLoginToken(cfg, repo, user, jwt, draws, faults);
  }

  method CleanupCodes(repo: Repository, faults: Faults) returns (resp: Response)
    modifies repo`codes
    ensures Outcome(repo.State(), resp)
            == Sole(old(repo.State()), old(repo.State()).(codes := DropExpiredCodes(old(repo.codes), repo.now)), faults)
    ensures resp == Done || (resp == Failed(ServerError) && repo.codes == old(repo.codes))
    ensures resp == Done ==>
              forall c :: c in repo.codes <==> c in old(repo.codes) && repo.now <= old(repo.codes)[c].expiresAt
    ensures forall c :: c in repo.codes ==> repo.codes[c] == old(repo.codes)[c]
  {
    var ok := repo.DeleteExpiredAuthorizationCodes(SoleStatement in faults);
    return if ok then Done else Failed(ServerError);
  }

  method CleanupTokens(repo: Repository, faults: Faults) returns (resp: Response)
    modifies repo`access, repo`refresh
    ensures Outcome(repo.State(), resp) == Sole(old(repo.State()), CleanAccess(old(repo.State())), faults)
    ensures resp == Done || (resp == Failed(ServerError) && repo.access == old(repo.access)
                             && repo.refresh == old(repo.refresh))
    ensures resp == Done ==>
              forall h :: h in repo.access <==> h in old(repo.access) && repo.now <= old(repo.access)[h].expiresAt
    ensures forall h :: h in repo.access ==> repo.access[h] == old(repo.access)[h]
    ensures repo.refresh.Keys == old(repo.refresh).Keys
    ensures resp == Done ==>
              forall h :: h in repo.refresh && repo.refresh[h].access.Some?
                  ==> AccessStored(repo.access, repo.refresh[h].access.value)
  {
    var ok := repo.DeleteExpiredAccessTokens(SoleStatement in faults);
    return if ok then Done else Failed(ServerError);
  }

  /** upsertUser: `None` when it fails. */
  method UpsertProviderUser(repo: Repository, providerName: string, info: UserInfo, newId: Id, faults: Faults)
    returns (user: Option<Id>)
    modifies repo`users
    ensures var r := UpsertUser(old(repo.State()), providerName, info, newId, faults);
            if r.None? then user.None? && repo.users == old(repo.users)
            else user == Some(r.value.0) && repo.users == r.value.1
  {
    if GetUserByProviderID in faults { return None; }
    var known := AccountsOf(repo.users, StrPtr(providerName), StrPtr(info.subject));
    if known != {} {
      if UpdateLastLogin in faults { return None; }
      return Some(Least(known));
    }
    if CreateUser in faults || newId in repo.users { return None; }
    if exists u :: u in repo.users && repo.users[u].email == info.email { return None; }
    repo.users := repo.users[newId := User(info.email, StrPtr(providerName), StrPtr(info.subject), None, false)];
    return Some(newId);
  }

  method HandleCallback(repo: Repository, client: Id, provider: Option<Provider>, redirectUri: string,
                        scope: Option<string>,
                        info: Option<UserInfo>, userId: Id, codeId: Id, code: string, faults: Faults)
                            returns (resp: Response)
    modifies repo
    ensures Outcome(repo.State(), resp)
            == HandleProviderCallback(old(repo.State()), client, provider, redirectUri, scope, info, userId, codeId,
                                      code, faults)
  {
    if GetClient in faults { return Failed(ServerError); }
    if client !in repo.clients { return Failed(ClientNotFound); }
    if !repo.clients[client].active { return Failed(ClientInactive); }
    if GetProvider in faults { return Failed(ServerError); }
    if provider.None? { return Failed(ProviderNotFound); }
    if !provider.value.enabled { return Failed(ProviderDisabled); }
    if info.None? { return Failed(ServerError); }
    var user := UpsertProviderUser(repo, provider.value.name, info.value, userId, faults);
    if user.None? { return Failed(ServerError); }
    if GenerateToken in faults { return Failed(ServerError); }
    var row := AuthorizationCode(codeId, client, user.value, provider.value.id, redirectUri, scope,
                                 repo.now + CODE_LIFETIME, None, false);
    var ok := repo.CreateAuthorizationCode(code, row, CreateAuthorizationCode in faults);
    if !ok { return Failed(ServerError); }
    return IssuedCode(code);
  }
}
