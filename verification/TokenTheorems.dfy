/** The properties of codes and refresh tokens that hold over every run. */
module TokenTheorems {
  import opened Prelude
  import opened Tables
  import opened Lifecycle
  import opened Invariant
  import opened Runs

  // ---------- One live token per family ----------

  lemma OneLivePerFamily(cfg: Config, w: World, h: string, k: string)
    requires Inv(cfg, w)
    requires Live(w, h) && Live(w, k) && w.refresh[h].family == w.refresh[k].family
    ensures h == k
  {
    var l := w.ledger;
    assert RefreshRowOk(w.refresh, w.access, l, h);
    assert RefreshRowOk(w.refresh, w.access, l, k);
    assert !Newer(l.refresh[h], l.refresh[k]);
    assert !Newer(l.refresh[k], l.refresh[h]);
    assert SameSlot(l.refresh[h], l.refresh[k]);
  }

  /** At every point of every run, two live refresh tokens of one family are the same token. */
  lemma OneLiveThroughout(cfg: Config, run: History, i: nat, h: string, k: string)
    requires Run(cfg, run) && i < |run.worlds|
    requires var w := run.worlds[i]; Live(w, h) && Live(w, k) && w.refresh[h].family == w.refresh[k].family
    ensures h == k
  {
    RunInv(cfg, run, i);
    OneLivePerFamily(cfg, run.worlds[i], h, k);
  }

  // ---------- Dead families stay dead ----------

  /** A family that has been issued and has no live token. */
  predicate FamilyDead(w: World, f: Id) {
    f in w.ledger.ids && forall h :: h in w.refresh && w.refresh[h].family == f ==> w.refresh[h].revoked
  }

  lemma DeathIsKept(cfg: Config, w: World, e: Event, r: Response, v: World, f: Id)
    requires Summary(cfg, w, e, r, v) && FamilyDead(w, f)
    ensures FamilyDead(v, f)
  {
    forall h | h in v.refresh && v.refresh[h].family == f ensures v.refresh[h].revoked {
      assert Kept(w, v, h) || Added(cfg, w, e, r, v, h);
    }
  }

  lemma SummaryAt(cfg: Config, run: History, i: nat)
    requires Run(cfg, run) && i < |run.events|
    ensures Summary(cfg, run.worlds[i], run.events[i], run.replies[i], run.worlds[i + 1])
  {
    RunInv(cfg, run, i);
    assert Proceeds(cfg, run, i);
    StepSummary(cfg, run.worlds[i], run.events[i], run.replies[i], run.worlds[i + 1]);
  }

  /** Once a family is dead it stays dead, and every later rotation of a token of it is refused. */
  lemma {:induction false} DeadFamilyStaysDead(cfg: Config, run: History, i: nat, j: nat, f: Id)
    requires Run(cfg, run) && i <= j < |run.worlds|
    requires FamilyDead(run.worlds[i], f)
    ensures FamilyDead(run.worlds[j], f)
    ensures j < |run.events| ==>
              forall h :: Rotates(cfg, run.events[j], run.replies[j], h) ==>
                h in run.worlds[j].refresh && run.worlds[j].refresh[h].family != f
  {
    if i == j {
    } else {
      DeadFamilyStaysDead(cfg, run, i, j - 1, f);
      SummaryAt(cfg, run, j - 1);
      DeathIsKept(cfg, run.worlds[j - 1], run.events[j - 1], run.replies[j - 1], run.worlds[j], f);
    }
    if j < |run.events| { SummaryAt(cfg, run, j); }
  }

  // ---------- At-most-once redemption ----------

  /** A refresh token that was issued and is no longer live, stored or not. */
  predicate Spent(w: World, h: string) {
    h in w.ledger.refresh && !Live(w, h)
  }

  lemma SpentIsKept(cfg: Config, w: World, e: Event, r: Response, v: World, h: string)
    requires Summary(cfg, w, e, r, v) && Spent(w, h)
    ensures Spent(v, h)
  {
    if h in v.refresh { assert Kept(w, v, h) || Added(cfg, w, e, r, v, h); }
  }

  lemma {:induction false} SpentStaysSpent(cfg: Config, run: History, i: nat, j: nat, h: string)
    requires Run(cfg, run) && i <= j < |run.worlds| && Spent(run.worlds[i], h)
    ensures Spent(run.worlds[j], h)
  {
    if i == j {
    } else {
      SpentStaysSpent(cfg, run, i, j - 1, h);
      SummaryAt(cfg, run, j - 1);
      SpentIsKept(cfg, run.worlds[j - 1], run.events[j - 1], run.replies[j - 1], run.worlds[j], h);
    }
  }

  /** In any run a refresh token value is rotated successfully at most once. */
  lemma RotatedAtMostOnce(cfg: Config, run: History, i: nat, j: nat, h: string)
    requires Run(cfg, run) && i < |run.events| && j < |run.events|
    requires Rotates(cfg, run.events[i], run.replies[i], h) && Rotates(cfg, run.events[j], run.replies[j], h)
    ensures i == j
  {
    var first, second := if i < j then i else j, if i < j then j else i;
    SummaryAt(cfg, run, first);
    SummaryAt(cfg, run, second);
    RunInv(cfg, run, first);
    assert RefreshRowOk(run.worlds[first].refresh, run.worlds[first].access, run.worlds[first].ledger, h);
    assert Spent(run.worlds[first + 1], h);
    if first < second { SpentStaysSpent(cfg, run, first + 1, second, h); }
  }

  /** An exchange of `code` that handed out tokens. */
  predicate Redeems(e: Event, r: Response, code: string) {
    e.Exchange? && e.code == code && r.Tokens?
  }

  lemma IssueForCodeRedeems(cfg: Config, w: World, code: string, a: AuthorizationCode, d: Draws, faults: Faults)
    ensures IssueForCode(cfg, w, code, a, d, faults).world.ledger.redeemed == w.ledger.redeemed
  {}

  lemma RedeemsOnce(cfg: Config, w: World, e: Event, r: Response, v: World)
    requires CodesOk(w.codes, w.ledger) && Transition(cfg, w, e, r, v) && e.Exchange? && r.Tokens?
    ensures e.code !in w.ledger.redeemed && e.code in v.ledger.redeemed
  {
    var u, a := w.(now := e.now), w.codes[e.code];
    assert CodeRowOk(w.codes, w.ledger, e.code);
    IssueForCodeRedeems(cfg, RedeemCode(u, e.code, a.id), e.code, a, e.draws, e.faults);
  }

  lemma {:induction false} RedeemedStays(cfg: Config, run: History, i: nat, j: nat, code: string)
    requires Run(cfg, run) && i <= j < |run.worlds| && code in run.worlds[i].ledger.redeemed
    ensures code in run.worlds[j].ledger.redeemed
  {
    if i == j {
    } else {
      RedeemedStays(cfg, run, i, j - 1, code);
      SummaryAt(cfg, run, j - 1);
    }
  }

  /** In any run an authorization code is exchanged successfully at most once. */
  lemma RedeemedAtMostOnce(cfg: Config, run: History, i: nat, j: nat, code: string)
    requires Run(cfg, run) && i < |run.events| && j < |run.events|
    requires Redeems(run.events[i], run.replies[i], code) && Redeems(run.events[j], run.replies[j], code)
    ensures i == j
  {
    RedeemsAt(cfg, run, i, code);
    RedeemsAt(cfg, run, j, code);
    if i < j { RedeemedStays(cfg, run, i + 1, j, code); }
    if j < i { RedeemedStays(cfg, run, j + 1, i, code); }
  }

  lemma RedeemsAt(cfg: Config, run: History, i: nat, code: string)
    requires Run(cfg, run) && i < |run.events| && Redeems(run.events[i], run.replies[i], code)
    ensures code !in run.worlds[i].ledger.redeemed && code in run.worlds[i + 1].ledger.redeemed
  {
    RunInv(cfg, run, i);
    assert Proceeds(cfg, run, i);
    RedeemsOnce(cfg, run.worlds[i], run.events[i], run.replies[i], run.worlds[i + 1]);
  }

  // ---------- User-wide revocation ----------

  /** No refresh token of the user is live. */
  predicate UserQuiet(w: World, user: Id) {
    forall h :: h in w.refresh && w.refresh[h].user == user ==> w.refresh[h].revoked
  }

  /** Logout, an admin revocation or a password change whose refresh-token revocation was applied. */
  predicate EndsSessionsOf(cfg: Config, w: World, e: Event, r: Response, user: Id) {
    || (e.Logout? && r.Done? && RevokeRefreshTokensByUser !in e.faults
        && cfg.verify(e.token).Some? && cfg.verify(e.token).value.user == user)
    || (e.AdminRevokeRefresh? && r.Done? && e.user == user)
    || (e.ChangePassword? && e.user == user && user in w.users && w.users[user].forcePasswordChange && e.policyOk
        && e.faults !! {GetUserByID, UpdatePasswordHash, SetForcePasswordChange, RevokeRefreshTokensByUser})
  }

  lemma EndSessionsQuiets(cfg: Config, w: World, user: Id, email: string, d: Draws, faults: Faults)
    requires RevokeRefreshTokensByUser !in faults
    ensures UserQuiet(EndSessions(cfg, w, user, email, d, faults).world, user)
  {
    EndSessionsKeeps(cfg, w, user, email, d, faults);
  }

  lemma LogoutQuiets(cfg: Config, w: World, e: Event, user: Id)
    requires e.Logout? && e.now == w.now && EndsSessionsOf(cfg, w, e, LogoutUser(cfg, w, e.token, e.faults).response,
                                                           user)
    ensures UserQuiet(LogoutUser(cfg, w, e.token, e.faults).world, user)
  {}

  lemma PasswordQuiets(cfg: Config, w: World, e: Event, user: Id)
    requires e.ChangePassword? && e.now == w.now
    requires EndsSessionsOf(cfg, w, e, ChangeUserPassword(cfg, w, e.user, e.policyOk, e.newHash, e.draws,
                                                          e.faults).response, user)
    ensures UserQuiet(ChangeUserPassword(cfg, w, e.user, e.policyOk, e.newHash, e.draws, e.faults).world, user)
  {
    var u1 := PasswordSet(w.users, e.user, e.newHash);
    var u2 := FlagCleared(u1, e.user);
    EndSessionsQuiets(cfg, w.(users := u2), e.user, w.users[e.user].email, e.draws, e.faults);
  }

  lemma RevocationQuiets(cfg: Config, w: World, e: Event, r: Response, v: World, user: Id)
    requires Transition(cfg, w, e, r, v) && EndsSessionsOf(cfg, w, e, r, user)
    ensures UserQuiet(v, user)
  {
    var u := w.(now := e.now);
    if e.Logout? { LogoutQuiets(cfg, u, e, user); }
    if e.ChangePassword? { PasswordQuiets(cfg, u, e, user); }
  }

  lemma QuietIsKept(cfg: Config, w: World, e: Event, r: Response, v: World, user: Id)
    requires Summary(cfg, w, e, r, v) && UserQuiet(w, user) && !Grants(w, e, r, user)
    ensures UserQuiet(v, user)
  {
    forall h | h in v.refresh && v.refresh[h].user == user ensures v.refresh[h].revoked {
      assert Kept(w, v, h) || Added(cfg, w, e, r, v, h);
    }
  }

  lemma {:induction false} QuietUntilGrant(cfg: Config, run: History, i: nat, j: nat, user: Id)
    requires Run(cfg, run) && i <= j < |run.worlds| && UserQuiet(run.worlds[i], user)
    requires forall k :: i <= k < j ==> !Grants(run.worlds[k], run.events[k], run.replies[k], user)
    ensures UserQuiet(run.worlds[j], user)
  {
    if i == j {
    } else {
      QuietUntilGrant(cfg, run, i, j - 1, user);
      SummaryAt(cfg, run, j - 1);
      QuietIsKept(cfg, run.worlds[j - 1], run.events[j - 1], run.replies[j - 1], run.worlds[j], user);
    }
  }

  /**
   After event `i` revoked the refresh tokens of `user`, no rotation of any of that user's
   tokens succeeds until a code exchange hands the user a new one.
   */
  lemma RevokedUserCannotRotate(cfg: Config, run: History, i: nat, j: nat, user: Id, h: string)
    requires Run(cfg, run) && i < j < |run.events|
    requires EndsSessionsOf(cfg, run.worlds[i], run.events[i], run.replies[i], user)
    requires forall k :: i < k < j ==> !Grants(run.worlds[k], run.events[k], run.replies[k], user)
    requires Rotates(cfg, run.events[j], run.replies[j], h)
    ensures h in run.worlds[j].refresh && run.worlds[j].refresh[h].user != user
  {
    assert Proceeds(cfg, run, i);
    RevocationQuiets(cfg, run.worlds[i], run.events[i], run.replies[i], run.worlds[i + 1], user);
    QuietUntilGrant(cfg, run, i + 1, j, user);
    SummaryAt(cfg, run, j);
  }

  // ---------- How many live tokens a user can have ----------

  function LiveOf(w: World, user: Id): (s: set<string>) {
    set h | h in w.refresh && w.refresh[h].user == user && !w.refresh[h].revoked
  }

  /** The families that exchanges have founded for a user. */
  function FamiliesOf(l: Ledger, user: Id): (s: set<Id>) {
    set f | f in l.families && l.families[f] in l.codes && l.codes[l.families[f]].user == user
  }

  lemma {:induction false} InjectionBound(s: set<string>, t: set<Id>, family: map<string, Id>)
    requires s <= family.Keys
    requires forall h :: h in s ==> family[h] in t
    requires forall h, k :: h in s && k in s && family[h] == family[k] ==> h == k
    ensures |s| <= |t|
    decreases |s|
  {
    if s == {} {
    } else {
      var h :| h in s;
      InjectionBound(s - {h}, t - {family[h]}, family);
    }
  }

  lemma LiveBoundedByFamilies(cfg: Config, w: World, user: Id)
    requires Inv(cfg, w)
    ensures |LiveOf(w, user)| <= |FamiliesOf(w.ledger, user)|
  {
    var family := map h | h in w.refresh :: w.refresh[h].family;
    forall h | h in LiveOf(w, user) ensures family[h] in FamiliesOf(w.ledger, user) {
      assert RefreshRowOk(w.refresh, w.access, w.ledger, h);
      assert RefreshOriginOk(w.ledger, h);
    }
    forall h, k | h in LiveOf(w, user) && k in LiveOf(w, user) && family[h] == family[k] ensures h == k {
      OneLivePerFamily(cfg, w, h, k);
    }
    InjectionBound(LiveOf(w, user), FamiliesOf(w.ledger, user), family);
  }

  /** How many of the first `i` events handed the user a refresh token by code exchange. */
  function GrantsTo(run: History, i: nat, user: Id): (n: nat)
    requires i <= |run.events| && i <= |run.worlds| && i <= |run.replies|
  {
    if i == 0 then 0
    else GrantsTo(run, i - 1, user)
         + (if Grants(run.worlds[i - 1], run.events[i - 1], run.replies[i - 1], user) then 1 else 0)
  }

  /** A family founded for a code on record; the codes of the other families keep their terms. */
  lemma FamilyIsCounted(l: Ledger, m: Ledger, f: Id, code: string, user: Id)
    requires FamiliesOk(l) && f !in l.ids && code in l.codes && Extends(l, m) && m.families == l.families[f := code]
    ensures FamiliesOf(m, user) == FamiliesOf(l, user) + if l.codes[code].user == user then {f} else {}
  {
    forall g | g in l.families ensures g != f && l.families[g] in l.codes { assert FamilyOk(l, g); }
  }

  lemma FamiliesAreKept(l: Ledger, m: Ledger, user: Id)
    requires FamiliesOk(l) && Extends(l, m) && m.families == l.families
    ensures FamiliesOf(m, user) == FamiliesOf(l, user)
  {
    forall g | g in l.families ensures l.families[g] in l.codes { assert FamilyOk(l, g); }
  }

  lemma FamiliesCountGrants(cfg: Config, w: World, e: Event, r: Response, v: World, user: Id)
    requires FamiliesOk(w.ledger) && CodesOk(w.codes, w.ledger) && Summary(cfg, w, e, r, v)
    requires e.Exchange? ==> e.draws.family !in w.ledger.ids
    ensures |FamiliesOf(v.ledger, user)| == |FamiliesOf(w.ledger, user)| + if Grants(w, e, r, user) then 1 else 0
  {
    if e.Exchange? && r.Tokens? && r.refresh.Some? {
      assert CodeRowOk(w.codes, w.ledger, e.code);
      FamilyIsCounted(w.ledger, v.ledger, e.draws.family, e.code, user);
      forall g | g in FamiliesOf(w.ledger, user) ensures g != e.draws.family { assert FamilyOk(w.ledger, g); }
    } else {
      FamiliesAreKept(w.ledger, v.ledger, user);
    }
  }

  lemma FamiliesCountAt(cfg: Config, run: History, i: nat, user: Id)
    requires Run(cfg, run) && i < |run.events|
    ensures |FamiliesOf(run.worlds[i + 1].ledger, user)| == |FamiliesOf(run.worlds[i].ledger, user)|
            + if Grants(run.worlds[i], run.events[i], run.replies[i], user) then 1 else 0
  {
    RunInv(cfg, run, i);
    SummaryAt(cfg, run, i);
    assert Proceeds(cfg, run, i);
    FamiliesCountGrants(cfg, run.worlds[i], run.events[i], run.replies[i], run.worlds[i + 1], user);
  }

  lemma {:induction false} GrantsFoundFamilies(cfg: Config, run: History, i: nat, user: Id)
    requires FromScratch(cfg, run) && i < |run.worlds|
    ensures |FamiliesOf(run.worlds[i].ledger, user)| == GrantsTo(run, i, user)
  {
    ScratchIsRun(cfg, run);
    if i == 0 {
    } else {
      GrantsFoundFamilies(cfg, run, i - 1, user);
      FamiliesCountAt(cfg, run, i - 1, user);
    }
  }

  /** A user's live refresh tokens never outnumber the code exchanges that issued one to the user. */
  lemma LiveTokensBounded(cfg: Config, run: History, i: nat, user: Id)
    requires FromScratch(cfg, run) && i < |run.worlds|
    ensures |LiveOf(run.worlds[i], user)| <= GrantsTo(run, i, user)
  {
    ScratchIsRun(cfg, run);
    RunInv(cfg, run, i);
    LiveBoundedByFamilies(cfg, run.worlds[i], user);
    GrantsFoundFamilies(cfg, run, i, user);
  }
}
