/**
 The rows of the token tables and the effect of the SQL statements on them. A
 table is keyed by the column its lookups use, which the schema declares UNIQUE: the
 code itself, the token hash, or the id. `UPDATE ... WHERE` is written out as an
 update of every row that meets the condition.
 */
module Tables {
  import opened Prelude

  datatype Client = Client(
    active: bool,
    secretHash: string,
    redirectUris: seq<string>,
    allowRefreshTokens: bool)

  /** The part of a user row the token flows read or write. */
  datatype User = User(
    email: string,
    provider: Option<string>,
    subject: Option<string>,
    passwordHash: Option<string>,
    forcePasswordChange: bool)

  datatype AuthorizationCode = AuthorizationCode(
    id: Id,
    client: Id,
    user: Id,
    provider: Id,
    redirectUri: string,
    scope: Option<string>,
    expiresAt: Time,
    usedAt: Option<Time>,
    revoked: bool)

  /** `client` is `None` for a token issued by direct login. */
  datatype AccessToken = AccessToken(
    id: Id,
    client: Option<Id>,
    user: Id,
    scope: Option<string>,
    expiresAt: Time,
    revoked: bool)

  datatype RefreshToken = RefreshToken(
    id: Id,
    family: Id,
    client: Id,
    user: Id,
    access: Option<Id>,
    previous: Option<Id>,
    scope: string,
    expiresAt: Time,
    revoked: bool,
    revokedAt: Option<Time>,
    revokeReason: Option<string>,
    usedAt: Option<Time>)

  type Codes = map<string, AuthorizationCode>
  type AccessTokens = map<string, AccessToken>
  type RefreshTokens = map<string, RefreshToken>

  // authorization_codes

  function UseCode(t: Codes, id: Id, now: Time): (t': Codes) {
    map c | c in t :: if t[c].id == id then t[c].(usedAt := Some(now)) else t[c]
  }

  function RevokeCode(t: Codes, id: Id): (t': Codes) {
    map c | c in t :: if t[c].id == id then t[c].(revoked := true) else t[c]
  }

  predicate CodeStored(t: Codes, id: Id) {
    exists c :: c in t && t[c].id == id
  }

  function DropExpiredCodes(t: Codes, now: Time): (t': Codes) {
    map c | c in t && !(t[c].expiresAt < now) :: t[c]
  }

  /** Deleting a provider cascades to its codes. */
  function DropCodesOf(t: Codes, provider: Id): (t': Codes) {
    map c | c in t && t[c].provider != provider :: t[c]
  }

  // access_tokens

  function RevokeAccess(t: AccessTokens, id: Id): (t': AccessTokens) {
    map h | h in t :: if t[h].id == id then t[h].(revoked := true) else t[h]
  }

  function RevokeAccessOfUser(t: AccessTokens, user: Id): (t': AccessTokens) {
    map h | h in t :: if t[h].user == user then t[h].(revoked := true) else t[h]
  }

  function RevokeAccessOfClient(t: AccessTokens, client: Id): (t': AccessTokens) {
    map h | h in t :: if t[h].client == Some(client) then t[h].(revoked := true) else t[h]
  }

  function DropExpiredAccess(t: AccessTokens, now: Time): (t': AccessTokens) {
    map h | h in t && !(t[h].expiresAt < now) :: t[h]
  }

  predicate AccessStored(t: AccessTokens, id: Id) {
    exists h :: h in t && t[h].id == id
  }

  // refresh_tokens

  function UseRefresh(t: RefreshTokens, id: Id, now: Time): (t': RefreshTokens) {
    map h | h in t ::
      if t[h].id == id then t[h].(usedAt := Some(now), revoked := true, revokeReason := Some("used")) else t[h]
  }

  function Revoked(r: RefreshToken, reason: string, now: Time): (r': RefreshToken) {
    r.(revoked := true, revokedAt := Some(now), revokeReason := Some(reason))
  }

  function RevokeRefresh(t: RefreshTokens, id: Id, reason: string, now: Time): (t': RefreshTokens) {
    map h | h in t :: if t[h].id == id then Revoked(t[h], reason, now) else t[h]
  }

  function RevokeFamily(t: RefreshTokens, family: Id, reason: string, now: Time): (t': RefreshTokens) {
    map h | h in t :: if t[h].family == family then Revoked(t[h], reason, now) else t[h]
  }

  function RevokeRefreshOfUser(t: RefreshTokens, user: Id, reason: string, now: Time): (t': RefreshTokens) {
    map h | h in t :: if t[h].user == user && !t[h].revoked then Revoked(t[h], reason, now) else t[h]
  }

  predicate RefreshStored(t: RefreshTokens, id: Id) {
    exists h :: h in t && t[h].id == id
  }

  /** Foreign key `access_token_id ... ON DELETE SET NULL`, after `access` lost rows. */
  function ClearAccessLinks(t: RefreshTokens, access: AccessTokens): (t': RefreshTokens) {
    map h | h in t ::
      if t[h].access.Some? && !AccessStored(access, t[h].access.value) then t[h].(access := None) else t[h]
  }

  /** Expired rows go; foreign key `previous_token_id ... ON DELETE SET NULL`. */
  function DropExpiredRefresh(t: RefreshTokens, now: Time): (t': RefreshTokens) {
    var kept := map h | h in t && !(t[h].expiresAt < now) :: t[h];
    map h | h in kept ::
      if kept[h].previous.Some? && !RefreshStored(kept, kept[h].previous.value)
      then kept[h].(previous := None) else kept[h]
  }
}
