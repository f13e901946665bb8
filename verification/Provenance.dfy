/** Where tokens come from: every client-bound token derives from one redeemed code, along one chain per family. */
module Provenance {
  import opened Prelude
  import opened Tables
  import opened Lifecycle
  import opened Invariant
  import opened Preservation
  import opened Runs
  import S = SessionCookie

  /** The token `n` rotations before `h`, following previous-token links. */
  ghost function Ancestor(l: Ledger, h: string, n: nat): (a: string)
    requires RefreshOriginsOk(l) && h in l.refresh && n <= l.refresh[h].generation
    ensures a in l.refresh
    ensures l.refresh[a].family == l.refresh[h].family
    ensures l.refresh[a].generation == l.refresh[h].generation - n
    decreases n
  {
    assert RefreshOriginOk(l, h);
    if n == 0 then h else Ancestor(l, l.refresh[h].parent.value, n - 1)
  }

  /**
   Within a family the links form one chain: of two tokens, the one of lower or equal
   generation is an ancestor of the other. Links lead to strictly lower generations, so they
   have no cycle, and they end at a token without parent, issued for the family's code.
   */
  lemma OneChain(l: Ledger, h: string, k: string)
    requires RefreshOriginsOk(l) && h in l.refresh && k in l.refresh
    requires l.refresh[h].family == l.refresh[k].family && l.refresh[h].generation <= l.refresh[k].generation
    ensures Ancestor(l, k, l.refresh[k].generation - l.refresh[h].generation) == h
    ensures var root := l.refresh[Ancestor(l, k, l.refresh[k].generation)];
            root.parent.None? && root.generation == 0 && root.code == l.refresh[k].code
  {
    var n := l.refresh[k].generation - l.refresh[h].generation;
    assert SameSlot(l.refresh[Ancestor(l, k, n)], l.refresh[h]);
    var root := Ancestor(l, k, l.refresh[k].generation);
    assert RefreshOriginOk(l, root);
    assert RefreshOriginOk(l, k);
  }

  /** The same of every state of every run. */
  lemma OneChainThroughout(cfg: Config, run: History, i: nat, h: string, k: string)
    requires Run(cfg, run) && i < |run.worlds| && h in run.worlds[i].ledger.refresh && k in run.worlds[i].ledger.refresh
    requires var o, p := run.worlds[i].ledger.refresh[h], run.worlds[i].ledger.refresh[k];
             o.family == p.family && o.generation <= p.generation
    ensures var l := run.worlds[i].ledger;
            && RefreshOriginsOk(l)
            && Ancestor(l, k, l.refresh[k].generation - l.refresh[h].generation) == h
            && var root := l.refresh[Ancestor(l, k, l.refresh[k].generation)];
               root.parent.None? && root.generation == 0 && root.code == l.refresh[k].code
  {
    RunInv(cfg, run, i);
    OneChain(run.worlds[i].ledger, h, k);
  }

  /** A stored refresh token's terms are those of exactly one code, which was redeemed for its family alone. */
  ghost predicate Derives(w: World, h: string, code: string)
    requires h in w.refresh
  {
    && code in w.ledger.redeemed && code in w.ledger.codes
    && (w.refresh[h].family in w.ledger.families && w.ledger.families[w.refresh[h].family] == code)
    && w.ledger.codes[code].client == w.refresh[h].client
    && w.ledger.codes[code].user == w.refresh[h].user
    && w.ledger.codes[code].scope == Some(w.refresh[h].scope)
  }

  /**
   At every point of every run: a stored refresh token derives from one redeemed code with
   its client, user and scope, and two tokens that derive from the same code are of one family.
   */
  lemma RefreshProvenance(cfg: Config, run: History, i: nat, h: string)
    requires Run(cfg, run) && i < |run.worlds| && h in run.worlds[i].refresh
    ensures exists code :: Derives(run.worlds[i], h, code)
    ensures forall c, d :: Derives(run.worlds[i], h, c) && Derives(run.worlds[i], h, d) ==> c == d
    ensures forall k, c ::
              k in run.worlds[i].refresh && Derives(run.worlds[i], h, c) && Derives(run.worlds[i], k, c) ==>
              run.worlds[i].refresh[h].family == run.worlds[i].refresh[k].family
  {
    RunInv(cfg, run, i);
    var w := run.worlds[i];
    assert RefreshRowOk(w.refresh, w.access, w.ledger, h);
    assert RefreshOriginOk(w.ledger, h);
    assert FamilyOk(w.ledger, w.refresh[h].family);
    assert Derives(w, h, w.ledger.refresh[h].code);
    forall k, c | k in w.refresh && Derives(w, h, c) && Derives(w, k, c)
      ensures w.refresh[h].family == w.refresh[k].family
    {
      assert ShareCode(w.ledger, w.refresh[h].family, w.refresh[k].family);
    }
  }

  /** A stored client-bound access token derives from one redeemed code with its client, user and scope. */
  lemma AccessProvenance(cfg: Config, run: History, i: nat, h: string)
    requires Run(cfg, run) && i < |run.worlds| && h in run.worlds[i].access && run.worlds[i].access[h].client.Some?
    ensures var w := run.worlds[i];
            && h in w.ledger.access && w.ledger.access[h].code.Some?
            && var c := w.ledger.access[h].code.value;
               && c in w.ledger.redeemed && c in w.ledger.codes
               && w.access[h].client == Some(w.ledger.codes[c].client)
               && w.access[h].user == w.ledger.codes[c].user
               && w.access[h].scope == w.ledger.codes[c].scope
  {
    RunInv(cfg, run, i);
    assert AccessRowOk(run.worlds[i].access, run.worlds[i].ledger, h);
    assert AccessOriginOk(cfg, run.worlds[i].ledger, h);
  }

  /**
   The stored links: a previous-token link points at the parent and is there as long as the
   parent is stored, a parent is used and revoked, and no two tokens link to one access token.
   */
  lemma LinksAreExact(cfg: Config, run: History, i: nat, h: string, k: string)
    requires Run(cfg, run) && i < |run.worlds| && h in run.worlds[i].refresh && k in run.worlds[i].refresh
    ensures var w := run.worlds[i];
            && h in w.ledger.refresh && k in w.ledger.refresh
            && (w.refresh[h].previous == Some(w.refresh[k].id) <==> w.ledger.refresh[h].parent == Some(k))
            && (w.ledger.refresh[h].parent == Some(k) ==> w.refresh[k].revoked && w.refresh[k].usedAt.Some?)
            && (w.refresh[h].access.Some? && w.refresh[h].access == w.refresh[k].access ==> h == k)
  {
    RunInv(cfg, run, i);
    ParentLink(cfg, run.worlds[i], h, k);
    AccessLink(cfg, run.worlds[i], h, k);
  }

  lemma ParentLink(cfg: Config, w: World, h: string, k: string)
    requires Inv(cfg, w) && h in w.refresh && k in w.refresh
    ensures h in w.ledger.refresh && k in w.ledger.refresh
    ensures w.refresh[h].previous == Some(w.refresh[k].id) <==> w.ledger.refresh[h].parent == Some(k)
    ensures w.ledger.refresh[h].parent == Some(k) ==> w.refresh[k].revoked && w.refresh[k].usedAt.Some?
  {
    var l := w.ledger;
    assert RefreshRowOk(w.refresh, w.access, l, h);
    assert RefreshRowOk(w.refresh, w.access, l, k);
    assert RefreshOriginOk(l, h);
    if w.refresh[h].previous == Some(w.refresh[k].id) {
      assert SameSlot(l.refresh[l.refresh[h].parent.value], l.refresh[k]);
    }
    if l.refresh[h].parent == Some(k) {
      assert Newer(l.refresh[h], l.refresh[k]);
    }
  }

  lemma AccessLink(cfg: Config, w: World, h: string, k: string)
    requires Inv(cfg, w) && h in w.refresh && k in w.refresh
    ensures w.refresh[h].access.Some? && w.refresh[h].access == w.refresh[k].access ==> h == k
  {
    var l := w.ledger;
    assert RefreshRowOk(w.refresh, w.access, l, h);
    assert RefreshRowOk(w.refresh, w.access, l, k);
    if w.refresh[h].access.Some? && w.refresh[h].access == w.refresh[k].access {
      assert SameAccess(l.access[l.refresh[h].access], l.access[l.refresh[k].access]);
      assert SameSlot(l.refresh[h], l.refresh[k]);
    }
  }

  /** In a family every stored token but the newest issued one is used and revoked. */
  lemma NonLastAreUsed(cfg: Config, run: History, i: nat, h: string, k: string)
    requires Run(cfg, run) && i < |run.worlds|
    requires var w := run.worlds[i];
             && h in w.refresh && k in w.ledger.refresh && h in w.ledger.refresh
             && w.ledger.refresh[k].family == w.ledger.refresh[h].family
             && w.ledger.refresh[k].generation > w.ledger.refresh[h].generation
    ensures run.worlds[i].refresh[h].revoked && run.worlds[i].refresh[h].usedAt.Some?
  {
    RunInv(cfg, run, i);
    assert Newer(run.worlds[i].ledger.refresh[k], run.worlds[i].ledger.refresh[h]);
  }

  // ---------- The web flow behind a code ----------

  lemma ApprovedAt(cfg: Config, w: World, e: Event, r: Response, v: World, client: Id, redirectUri: string)
    requires Transition(cfg, w, e, r, v)
    requires (client, redirectUri) in v.ledger.approved && (client, redirectUri) !in w.ledger.approved
    ensures e.WebLogin? && r.RedirectToProvider? && e.client == client && e.redirectUri == redirectUri
    ensures client in w.clients && w.clients[client].active && redirectUri in w.clients[client].redirectUris
  {
    if !e.WebLogin? { ApprovedOnlyAtLogin(cfg, w, e); }
  }

  lemma ExchangeApprovesNothing(cfg: Config, w: World, code: string, a: AuthorizationCode, d: Draws, faults: Faults)
    ensures IssueForCode(cfg, w, code, a, d, faults).world.ledger.approved == w.ledger.approved
  {}

  lemma RotationApprovesNothing(cfg: Config, w: World, hash: string, t: RefreshToken, d: Draws, faults: Faults)
    ensures IssueSuccessor(cfg, w, hash, t, d, faults).world.ledger.approved == w.ledger.approved
  {}

  lemma ApprovedOnlyAtLogin(cfg: Config, w: World, e: Event)
    requires Admissible(cfg, w, e) && !e.WebLogin?
    ensures Step(cfg, w, e).world.ledger.approved == w.ledger.approved
  {
    var u := w.(now := e.now);
    if OnlyTightens(e) {
      TighteningEvents(cfg, w, e);
    } else if e.Exchange? {
      if e.code in w.codes {
        var a := w.codes[e.code];
        ExchangeApprovesNothing(cfg, RedeemCode(u, e.code, a.id), e.code, a, e.draws, e.faults);
      }
    } else if e.Rotate? {
      var p := cfg.sha256(e.token);
      if p in w.refresh {
        var t := w.refresh[p];
        RotationApprovesNothing(cfg, u.(refresh := UseRefresh(u.refresh, t.id, u.now)), p, t, e.draws, e.faults);
      }
    } else if e.WebCallback? {
      var decoded := S.DecodeSession(cfg.cookies, e.cookie);
      if decoded.Accepted? { CallbackKeeps(u, e, decoded.session.redirectUri, decoded.session.scope); }
    } else if e.Login? {
      LoginKeeps(cfg, u, e);
    } else {
      PasswordKeeps(cfg, u, e);
    }
  }

  /** A login step of the run at which this redirect URI was registered for this active client. */
  predicate LoginApproved(run: History, k: nat, client: Id, redirectUri: string)
    requires |run.worlds| == |run.events| + 1 && |run.replies| == |run.events|
  {
    && k < |run.events| && run.events[k].WebLogin? && run.replies[k].RedirectToProvider?
    && run.events[k].client == client && run.events[k].redirectUri == redirectUri
    && client in run.worlds[k].clients && run.worlds[k].clients[client].active
    && redirectUri in run.worlds[k].clients[client].redirectUris
  }

  lemma {:induction false} ApprovalHappened(cfg: Config, run: History, i: nat, client: Id, redirectUri: string)
    requires FromScratch(cfg, run) && i < |run.worlds|
    requires (client, redirectUri) in run.worlds[i].ledger.approved
    ensures exists k :: 0 <= k < i && LoginApproved(run, k, client, redirectUri)
  {
    assert i > 0;
    if (client, redirectUri) in run.worlds[i - 1].ledger.approved {
      ApprovalHappened(cfg, run, i - 1, client, redirectUri);
    } else {
      assert Proceeds(cfg, run, i - 1);
      ApprovedAt(cfg, run.worlds[i - 1], run.events[i - 1], run.replies[i - 1], run.worlds[i], client, redirectUri);
      assert LoginApproved(run, i - 1, client, redirectUri);
    }
  }

  /** Every stored code's client and redirect URI passed the registration check at an earlier login. */
  lemma CodeWasApproved(cfg: Config, run: History, i: nat, code: string)
    requires FromScratch(cfg, run) && i < |run.worlds| && code in run.worlds[i].codes
    ensures var a := run.worlds[i].codes[code];
            exists k :: 0 <= k < i && LoginApproved(run, k, a.client, a.redirectUri)
  {
    ScratchIsRun(cfg, run);
    RunInv(cfg, run, i);
    var a := run.worlds[i].codes[code];
    assert CodeRowOk(run.worlds[i].codes, run.worlds[i].ledger, code);
    assert GrantApproved(run.worlds[i].ledger, code);
    ApprovalHappened(cfg, run, i, a.client, a.redirectUri);
  }

  /** ... so a successful exchange names a redirect URI that was checked for that very client when the flow began. */
  lemma ExchangeWasApproved(cfg: Config, run: History, i: nat)
    requires FromScratch(cfg, run) && i < |run.events|
    requires run.events[i].Exchange? && run.replies[i].Tokens?
    ensures exists k :: 0 <= k < i && LoginApproved(run, k, run.events[i].client, run.events[i].redirectUri)
  {
    assert Proceeds(cfg, run, i);
    ExchangeMatches(cfg, run.worlds[i], run.events[i]);
    CodeWasApproved(cfg, run, i, run.events[i].code);
  }

  lemma ExchangeMatches(cfg: Config, w: World, e: Event)
    requires e.Exchange? && Step(cfg, w, e).response.Tokens?
    ensures e.code in w.codes && w.codes[e.code].client == e.client && w.codes[e.code].redirectUri == e.redirectUri
  {}
}
