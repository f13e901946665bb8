/**
 The OAuth providers of the client applications, with their secrets encrypted at
 rest. Whatever is created, updated, enabled, disabled or deleted, the store agrees
 with a plain one that keeps the secrets in the clear.
 */
module ProviderStore {
  import opened Prelude
  import opened Envelope

  /** The columns that are copied around unchanged. */
  datatype Details = Details(
    displayName: string, providerClientId: string, authUrl: string, tokenUrl: string, userInfoUrl: string,
        scopes: seq<string>)

  /** A row; `S` is the stored form of the secret. */
  datatype Row<S> = Row(client: Id, name: string, details: Details, secret: S, enabled: bool)

  type Stored = map<Id, Row<string>>
  type Plain = map<Id, Row<seq<byte>>>

  datatype Fault = ReadFails | NonceFails | WriteFails

  /** `valid`: the other fields of the request pass validation. */
  datatype Event =
    | Create(client: Id, name: string, details: Details, secret: seq<byte>, enabled: bool, valid: bool, newId: Id,
             nonce: seq<byte>, faults: set<Fault>)
    | Update(id: Id, client: Id, details: Details, secret: seq<byte>, enabled: bool, valid: bool,
             nonce: seq<byte>, faults: set<Fault>)
    | Enable(id: Id, client: Id, faults: set<Fault>)
    | Disable(id: Id, client: Id, faults: set<Fault>)
    | Delete(id: Id, client: Id, faults: set<Fault>)

  datatype Reply = Done | Created(id: Id) | Invalid | Duplicate | NotFound | ClientMismatch | Failed

  predicate NameTaken<S>(rows: map<Id, Row<S>>, client: Id, name: string) {
    exists id :: id in rows && rows[id].client == client && rows[id].name == name
  }

  /** validateOwnership. */
  function OwnershipError<S>(rows: map<Id, Row<S>>, id: Id, client: Id, faults: set<Fault>): (r: Option<Reply>) {
    if ReadFails in faults then Some(Failed)
    else if id !in rows then Some(NotFound)
    else if rows[id].client != client then Some(ClientMismatch)
    else None
  }

  /** One call on a store whose new secrets take the form `sealed` (`None` if sealing fails). */
  function Perform<S>(rows: map<Id, Row<S>>, e: Event, sealed: Option<S>): (r: (map<Id, Row<S>>, Reply)) {
    match e
    case Create(client, name, details, secret, enabled, valid, newId, _, faults) =>
      if !valid || secret == [] then (rows, Invalid)
      else if sealed.None? || WriteFails in faults then (rows, Failed)
      else if NameTaken(rows, client, name) then (rows, Duplicate)
      else (rows[newId := Row(client, name, details, sealed.value, enabled)], Created(newId))
    case Update(id, client, details, secret, enabled, valid, _, faults) =>
      if !valid then (rows, Invalid)
      else
        var error := OwnershipError(rows, id, client, faults);
        if error.Some? then (rows, error.value)
        else if secret != [] && sealed.None? then (rows, Failed)
        else if WriteFails in faults then (rows, Failed)
        else
          var kept := if secret == [] then rows[id].secret else sealed.value;
          (rows[id := rows[id].(details := details, secret := kept, enabled := enabled)], Done)
    case Enable(id, client, faults) => SetEnabled(rows, id, client, true, faults)
    case Disable(id, client, faults) => SetEnabled(rows, id, client, false, faults)
    case Delete(id, client, faults) => Remove(rows, id, client, faults)
  }

  function SetEnabled<S>(rows: map<Id, Row<S>>, id: Id, client: Id, enabled: bool,
                         faults: set<Fault>): (r: (map<Id, Row<S>>, Reply))
  {
    var error := OwnershipError(rows, id, client, faults);
    if error.Some? then (rows, error.value)
    else if WriteFails in faults then (rows, Failed)
    else (rows[id := rows[id].(enabled := enabled)], Done)
  }

  function Remove<S>(rows: map<Id, Row<S>>, id: Id, client: Id, faults: set<Fault>): (r: (map<Id, Row<S>>, Reply)) {
    var error := OwnershipError(rows, id, client, faults);
    if error.Some? then (rows, error.value)
    else if WriteFails in faults then (rows, Failed)
    else (rows - {id}, Done)
  }

  predicate CarriesSecret(e: Event) {
    e.Create? || e.Update?
  }

  /** The form the server stores the event's secret in. */
  function SealedSecret(a: Aead, key: seq<byte>, e: Event): (s: Option<string>) {
    if !CarriesSecret(e) || NonceFails in e.faults then None else Encrypt(a, key, e.nonce, e.secret)
  }

  /** ... and the form the plain store keeps it in. */
  function ClearSecret(e: Event): (s: Option<seq<byte>>) {
    if !CarriesSecret(e) || NonceFails in e.faults then None else Some(e.secret)
  }

  class ProviderService {
    const aead: Aead
    const key: seq<byte>
    var rows: Stored

    constructor (aead: Aead, key: seq<byte>)
      requires |key| == 32
      ensures this.aead == aead && this.key == key && rows == map[]
    {
      this.aead, this.key, rows := aead, key, map[];
    }

    method CreateProvider(e: Event) returns (reply: Reply)
      requires e.Create?
      modifies this
      ensures (rows, reply) == Perform(old(rows), e, SealedSecret(aead, key, e))
    {
      if !e.valid || e.secret == [] { return Invalid; }
      if NonceFails in e.faults { return Failed; }
      var encrypted := Encrypt(aead, key, e.nonce, e.secret);
      if encrypted.None? || WriteFails in e.faults { return Failed; }
      if NameTaken(rows, e.client, e.name) { return Duplicate; }
      rows := rows[e.newId := Row(e.client, e.name, e.details, encrypted.value, e.enabled)];
      return Created(e.newId);
    }

    method UpdateProvider(e: Event) returns (reply: Reply)
      requires e.Update?
      modifies this
      ensures (rows, reply) == Perform(old(rows), e, SealedSecret(aead, key, e))
    {
      if !e.valid { return Invalid; }
      var error := OwnershipError(rows, e.id, e.client, e.faults);
      if error.Some? { return error.value; }
      var secret := rows[e.id].secret;
      if e.secret != [] {
        if NonceFails in e.faults { return Failed; }
        var encrypted := Encrypt(aead, key, e.nonce, e.secret);
        if encrypted.None? { return Failed; }
        secret := encrypted.value;
      }
      if WriteFails in e.faults { return Failed; }
      rows := rows[e.id := rows[e.id].(details := e.details, secret := secret, enabled := e.enabled)];
      return Done;
    }

    /** EnableProvider, DisableProvider and DeleteProvider: the ownership check, then one statement. */
    method Administer(e: Event) returns (reply: Reply)
      requires e.Enable? || e.Disable? || e.Delete?
      modifies this
      ensures (rows, reply) == Perform(old(rows), e, SealedSecret(aead, key, e))
      ensures reply == Done <==> e.id in old(rows) && old(rows)[e.id].client == e.client
                                 && e.faults !! {ReadFails, WriteFails}
      ensures if reply != Done then rows == old(rows)
              else if e.Delete? then rows == old(rows) - {e.id}
              else rows == old(rows)[e.id := old(rows)[e.id].(enabled := e.Enable?)]
    {
      var error := OwnershipError(rows, e.id, e.client, e.faults);
      if error.Some? { return error.value; }
      if WriteFails in e.faults { return Failed; }
      if e.Enable? {
        rows := rows[e.id := rows[e.id].(enabled := true)];
      } else if e.Disable? {
        rows := rows[e.id := rows[e.id].(enabled := false)];
      } else {
        rows := rows - {e.id};
      }
      return Done;
    }
  }

  /** GetProviderWithSecret. */
  function ReadSecret(a: Aead, key: seq<byte>, rows: Stored, id: Id): (u: Option<Unsealed>) {
    if id in rows then Some(Decrypt(a, key, rows[id].secret)) else None
  }

  // ---------- Runs ----------

  function After(a: Aead, key: seq<byte>, es: seq<Event>, i: nat): (rows: Stored)
    requires i <= |es|
  {
    if i == 0 then map[] else Perform(After(a, key, es, i - 1), es[i - 1], SealedSecret(a, key, es[i - 1])).0
  }

  function ReplyTo(a: Aead, key: seq<byte>, es: seq<Event>, i: nat): (r: Reply)
    requires i < |es|
  {
    Perform(After(a, key, es, i), es[i], SealedSecret(a, key, es[i])).1
  }

  function PlainAfter(es: seq<Event>, i: nat): (rows: Plain)
    requires i <= |es|
  {
    if i == 0 then map[] else Perform(PlainAfter(es, i - 1), es[i - 1], ClearSecret(es[i - 1])).0
  }

  function PlainReplyTo(es: seq<Event>, i: nat): (r: Reply)
    requires i < |es|
  {
    Perform(PlainAfter(es, i), es[i], ClearSecret(es[i])).1
  }

  /** The key is one AES accepts, and nonces have the size GCM asks for. */
  predicate WellKeyed(key: seq<byte>, es: seq<Event>) {
    |key| == 32 && forall i :: 0 <= i < |es| && CarriesSecret(es[i]) ==> |es[i].nonce| == NONCE_SIZE
  }

  // ---------- Refinement ----------

  /** The same provider, with its secret sealed in one store and plain in the other. */
  ghost predicate SameRow(a: Aead, key: seq<byte>, r: Row<string>, p: Row<seq<byte>>) {
    && r.client == p.client && r.name == p.name && r.details == p.details && r.enabled == p.enabled
    && Decrypt(a, key, r.secret) == Opened(p.secret)
  }

  ghost predicate Refines(a: Aead, key: seq<byte>, rows: Stored, plain: Plain) {
    && rows.Keys == plain.Keys
    && forall id {:trigger SameRow(a, key, rows[id], plain[id])} :: id in rows ==> SameRow(a, key, rows[id], plain[id])
  }

  lemma SameOwnership(a: Aead, key: seq<byte>, rows: Stored, plain: Plain, id: Id, client: Id, faults: set<Fault>)
    requires Refines(a, key, rows, plain)
    ensures OwnershipError(rows, id, client, faults) == OwnershipError(plain, id, client, faults)
  {
    if id in rows { assert SameRow(a, key, rows[id], plain[id]); }
  }

  lemma SameNames(a: Aead, key: seq<byte>, rows: Stored, plain: Plain, client: Id, name: string)
    requires Refines(a, key, rows, plain)
    ensures NameTaken(rows, client, name) == NameTaken(plain, client, name)
  {
    if id :| id in rows && rows[id].client == client && rows[id].name == name {
      assert SameRow(a, key, rows[id], plain[id]);
    }
    if id :| id in plain && plain[id].client == client && plain[id].name == name {
      assert SameRow(a, key, rows[id], plain[id]);
    }
  }

  /** A secret and its sealed form, or nothing in either store. */
  ghost predicate SameSecret(a: Aead, key: seq<byte>, sealed: Option<string>, clear: Option<seq<byte>>) {
    if clear.None? then sealed.None? else sealed.Some? && Decrypt(a, key, sealed.value) == Opened(clear.value)
  }

  lemma SealingIsFaithful(a: Aead, key: seq<byte>, e: Event)
    requires AeadLaw(a) && |key| == 32 && (CarriesSecret(e) ==> |e.nonce| == NONCE_SIZE)
    ensures SameSecret(a, key, SealedSecret(a, key, e), ClearSecret(e))
  {
    if CarriesSecret(e) { EnvelopeRoundTrip(a, key, e.nonce, e.secret); }
  }

  lemma PutRefines(a: Aead, key: seq<byte>, rows: Stored, plain: Plain, id: Id, r: Row<string>, p: Row<seq<byte>>)
    requires Refines(a, key, rows, plain) && SameRow(a, key, r, p)
    ensures Refines(a, key, rows[id := r], plain[id := p])
  {
    var s, q := rows[id := r], plain[id := p];
    forall k | k in s ensures SameRow(a, key, s[k], q[k]) {
      if k != id { assert SameRow(a, key, rows[k], plain[k]); }
    }
  }

  lemma CreateRefines(a: Aead, key: seq<byte>, rows: Stored, plain: Plain, e: Event, sealed: Option<string>,
                      clear: Option<seq<byte>>)
    requires e.Create? && Refines(a, key, rows, plain) && SameSecret(a, key, sealed, clear)
    ensures var r, p := Perform(rows, e, sealed), Perform(plain, e, clear);
            Refines(a, key, r.0, p.0) && r.1 == p.1
  {
    SameNames(a, key, rows, plain, e.client, e.name);
    if sealed.Some? {
      PutRefines(a, key, rows, plain, e.newId, Row(e.client, e.name, e.details, sealed.value, e.enabled),
                 Row(e.client, e.name, e.details, clear.value, e.enabled));
    }
  }

  lemma UpdateRefines(a: Aead, key: seq<byte>, rows: Stored, plain: Plain, e: Event, sealed: Option<string>,
                      clear: Option<seq<byte>>)
    requires e.Update? && Refines(a, key, rows, plain) && SameSecret(a, key, sealed, clear)
    ensures var r, p := Perform(rows, e, sealed), Perform(plain, e, clear);
            Refines(a, key, r.0, p.0) && r.1 == p.1
  {
    SameOwnership(a, key, rows, plain, e.id, e.client, e.faults);
    if e.id in rows && (e.secret == [] || sealed.Some?) {
      assert SameRow(a, key, rows[e.id], plain[e.id]);
      var s := if e.secret == [] then rows[e.id].secret else sealed.value;
      var c := if e.secret == [] then plain[e.id].secret else clear.value;
      PutRefines(a, key, rows, plain, e.id, rows[e.id].(details := e.details, secret := s, enabled := e.enabled),
                 plain[e.id].(details := e.details, secret := c, enabled := e.enabled));
    }
  }

  lemma SetEnabledRefines(a: Aead, key: seq<byte>, rows: Stored, plain: Plain, id: Id, client: Id, enabled: bool,
                          faults: set<Fault>)
    requires Refines(a, key, rows, plain)
    ensures var r, p := SetEnabled(rows, id, client, enabled, faults), SetEnabled(plain, id, client, enabled, faults);
            Refines(a, key, r.0, p.0) && r.1 == p.1
  {
    SameOwnership(a, key, rows, plain, id, client, faults);
    if id in rows {
      assert SameRow(a, key, rows[id], plain[id]);
      PutRefines(a, key, rows, plain, id, rows[id].(enabled := enabled), plain[id].(enabled := enabled));
    }
  }

  lemma RemoveRefines(a: Aead, key: seq<byte>, rows: Stored, plain: Plain, id: Id, client: Id, faults: set<Fault>)
    requires Refines(a, key, rows, plain)
    ensures var r, p := Remove(rows, id, client, faults), Remove(plain, id, client, faults);
            Refines(a, key, r.0, p.0) && r.1 == p.1
  {
    SameOwnership(a, key, rows, plain, id, client, faults);
    var s, q := rows - {id}, plain - {id};
    forall k | k in s ensures SameRow(a, key, s[k], q[k]) { assert SameRow(a, key, rows[k], plain[k]); }
  }

  lemma PerformRefines(a: Aead, key: seq<byte>, rows: Stored, plain: Plain, e: Event)
    requires AeadLaw(a) && |key| == 32 && (CarriesSecret(e) ==> |e.nonce| == NONCE_SIZE)
    requires Refines(a, key, rows, plain)
    ensures var r, p := Perform(rows, e, SealedSecret(a, key, e)), Perform(plain, e, ClearSecret(e));
            Refines(a, key, r.0, p.0) && r.1 == p.1
  {
    SealingIsFaithful(a, key, e);
    if e.Create? {
      CreateRefines(a, key, rows, plain, e, SealedSecret(a, key, e), ClearSecret(e));
    } else if e.Update? {
      UpdateRefines(a, key, rows, plain, e, SealedSecret(a, key, e), ClearSecret(e));
    } else if e.Delete? {
      RemoveRefines(a, key, rows, plain, e.id, e.client, e.faults);
    } else {
      SetEnabledRefines(a, key, rows, plain, e.id, e.client, e.Enable?, e.faults);
    }
  }

  /** Over every run the encrypted store holds what the plain one holds, and answers every call alike. */
  lemma {:induction false} StoreRefinesPlain(a: Aead, key: seq<byte>, es: seq<Event>, i: nat)
    requires AeadLaw(a) && WellKeyed(key, es) && i <= |es|
    ensures Refines(a, key, After(a, key, es, i), PlainAfter(es, i))
    ensures i > 0 ==> ReplyTo(a, key, es, i - 1) == PlainReplyTo(es, i - 1)
  {
    if i == 0 {
    } else {
      StoreRefinesPlain(a, key, es, i - 1);
      PerformRefines(a, key, After(a, key, es, i - 1), PlainAfter(es, i - 1), es[i - 1]);
    }
  }

  lemma RepliesAgree(a: Aead, key: seq<byte>, es: seq<Event>, i: nat)
    requires AeadLaw(a) && WellKeyed(key, es) && i < |es|
    ensures ReplyTo(a, key, es, i) == PlainReplyTo(es, i)
  {
    StoreRefinesPlain(a, key, es, i + 1);
  }

  // ---------- The last secret supplied ----------

  /** The call succeeded and supplied a secret for provider `id`. */
  predicate Supplies(e: Event, r: Reply, id: Id) {
    || (e.Create? && r == Created(id))
    || (e.Update? && e.id == id && e.secret != [] && r == Done)
  }

  /** The last secret a successful call among the first `i` supplied for `id`. */
  function LastSupplied(a: Aead, key: seq<byte>, es: seq<Event>, i: nat, id: Id): (s: Option<seq<byte>>)
    requires i <= |es|
  {
    if i == 0 then None
    else if Supplies(es[i - 1], ReplyTo(a, key, es, i - 1), id) then Some(es[i - 1].secret)
    else LastSupplied(a, key, es, i - 1, id)
  }

  /** If the plain store has provider `id`, its secret is `last`, which is not empty. */
  ghost predicate Holds(plain: Plain, id: Id, last: Option<seq<byte>>) {
    id in plain ==> last == Some(plain[id].secret) && plain[id].secret != []
  }

  /** One call on the plain store, where `last` is the last secret supplied for `id` before it. */
  lemma SuppliedOrKept(plain: Plain, e: Event, id: Id, last: Option<seq<byte>>)
    requires Holds(plain, id, last)
    ensures var p := Perform(plain, e, ClearSecret(e));
            Holds(p.0, id, if Supplies(e, p.1, id) then Some(e.secret) else last)
  {}

  lemma LastIsKept(a: Aead, key: seq<byte>, es: seq<Event>, i: nat, id: Id)
    requires i < |es| && ReplyTo(a, key, es, i) == PlainReplyTo(es, i)
    requires Holds(PlainAfter(es, i), id, LastSupplied(a, key, es, i, id))
    ensures Holds(PlainAfter(es, i + 1), id, LastSupplied(a, key, es, i + 1, id))
  {
    SuppliedOrKept(PlainAfter(es, i), es[i], id, LastSupplied(a, key, es, i, id));
  }

  lemma {:induction false} PlainHoldsLast(a: Aead, key: seq<byte>, es: seq<Event>, i: nat, id: Id)
    requires AeadLaw(a) && WellKeyed(key, es) && i <= |es|
    ensures Holds(PlainAfter(es, i), id, LastSupplied(a, key, es, i, id))
  {
    if i == 0 {
    } else {
      PlainHoldsLast(a, key, es, i - 1, id);
      RepliesAgree(a, key, es, i - 1);
      LastIsKept(a, key, es, i - 1, id);
    }
  }

  /** Reading a stored provider's secret always yields the last secret supplied for it, which is not empty. */
  lemma SecretIsLastSupplied(a: Aead, key: seq<byte>, es: seq<Event>, i: nat, id: Id)
    requires AeadLaw(a) && WellKeyed(key, es) && i <= |es| && id in After(a, key, es, i)
    ensures var last := LastSupplied(a, key, es, i, id);
            last.Some? && last.value != [] && ReadSecret(a, key, After(a, key, es, i), id) == Some(Opened(last.value))
  {
    StoreRefinesPlain(a, key, es, i);
    assert SameRow(a, key, After(a, key, es, i)[id], PlainAfter(es, i)[id]);
    PlainHoldsLast(a, key, es, i, id);
  }

  // ---------- What the calls made of a provider ----------

  /** What is known of a provider besides its secret. */
  datatype View = View(client: Id, name: string, details: Details, enabled: bool)

  function ViewAt<S>(rows: map<Id, Row<S>>, id: Id): (v: Option<View>) {
    if id in rows then Some(View(rows[id].client, rows[id].name, rows[id].details, rows[id].enabled)) else None
  }

  /** How a call that was answered `r` changes what is known of provider `id`. */
  function Told(v: Option<View>, e: Event, r: Reply, id: Id): (v': Option<View>) {
    if e.Create? then if r == Created(id) then Some(View(e.client, e.name, e.details, e.enabled)) else v
    else if e.id != id || r != Done || v.None? then v
    else
      match e
      case Update(_, _, details, _, enabled, _, _, _) => Some(v.value.(details := details, enabled := enabled))
      case Enable(_, _, _) => Some(v.value.(enabled := true))
      case Disable(_, _, _) => Some(v.value.(enabled := false))
      case Delete(_, _, _) => None
  }

  /** Provider `id` as the first `i` calls and their answers tell it, from its last creation on. */
  function Described(a: Aead, key: seq<byte>, es: seq<Event>, i: nat, id: Id): (v: Option<View>)
    requires i <= |es|
  {
    if i == 0 then None else Told(Described(a, key, es, i - 1, id), es[i - 1], ReplyTo(a, key, es, i - 1), id)
  }

  lemma PerformIsTold<S>(rows: map<Id, Row<S>>, e: Event, sealed: Option<S>, id: Id)
    ensures var r := Perform(rows, e, sealed);
            ViewAt(r.0, id) == Told(ViewAt(rows, id), e, r.1, id)
  {}

  /**
   Over every run the store is what the successful calls made of it: a provider is stored exactly when it
   was created and not deleted since, its details are those of the last create or update, and its flag is
   that of the last create, update, enable or disable.
   */
  lemma {:induction false} StoreIsAsDescribed(a: Aead, key: seq<byte>, es: seq<Event>, i: nat, id: Id)
    requires i <= |es|
    ensures ViewAt(After(a, key, es, i), id) == Described(a, key, es, i, id)
  {
    if i == 0 {
    } else {
      StoreIsAsDescribed(a, key, es, i - 1, id);
      PerformIsTold(After(a, key, es, i - 1), es[i - 1], SealedSecret(a, key, es[i - 1]), id);
    }
  }

  /** The first reason to refuse a call that names a stored provider. */
  function Refusal(v: Option<View>, e: Event): (r: Option<Reply>)
    requires !e.Create?
  {
    if e.Update? && !e.valid then Some(Invalid)
    else if ReadFails in e.faults then Some(Failed)
    else if v.None? then Some(NotFound)
    else if v.value.client != e.client then Some(ClientMismatch)
    else if e.Update? && e.secret != [] && NonceFails in e.faults then Some(Failed)
    else if WriteFails in e.faults then Some(Failed)
    else None
  }

  /** A client has a provider of this name. */
  ghost predicate NameInUse(a: Aead, key: seq<byte>, es: seq<Event>, i: nat, client: Id, name: string)
    requires i <= |es|
  {
    exists id {:trigger Described(a, key, es, i, id)} ::
      var v := Described(a, key, es, i, id); v.Some? && v.value.client == client && v.value.name == name
  }

  lemma NameInUseIff(a: Aead, key: seq<byte>, es: seq<Event>, i: nat, client: Id, name: string)
    requires i <= |es|
    ensures NameTaken(After(a, key, es, i), client, name) <==> NameInUse(a, key, es, i, client, name)
  {
    var rows := After(a, key, es, i);
    forall id ensures ViewAt(rows, id) == Described(a, key, es, i, id) { StoreIsAsDescribed(a, key, es, i, id); }
    if id :| id in rows && rows[id].client == client && rows[id].name == name {
      assert Described(a, key, es, i, id) == ViewAt(rows, id);
    }
  }

  /** What a creation is answered, in every run. */
  lemma CreateAnswersIff(a: Aead, key: seq<byte>, es: seq<Event>, i: nat)
    requires AeadLaw(a) && WellKeyed(key, es) && i < |es| && es[i].Create?
    ensures var e, r := es[i], ReplyTo(a, key, es, i);
            var sound, stores := e.valid && e.secret != [], e.faults !! {NonceFails, WriteFails};
            && (r == Invalid <==> !sound)
            && (r == Failed <==> sound && !stores)
            && (r == Duplicate <==> sound && stores && NameInUse(a, key, es, i, e.client, e.name))
            && (r == Created(e.newId) <==> sound && stores && !NameInUse(a, key, es, i, e.client, e.name))
  {
    SealingIsFaithful(a, key, es[i]);
    NameInUseIff(a, key, es, i, es[i].client, es[i].name);
  }

  lemma AnsweredFromView<S>(rows: map<Id, Row<S>>, e: Event, sealed: Option<S>)
    requires !e.Create? && (e.Update? ==> (sealed.None? <==> NonceFails in e.faults))
    ensures var refusal := Refusal(ViewAt(rows, e.id), e);
            Perform(rows, e, sealed).1 == if refusal.Some? then refusal.value else Done
  {}

  /** Any other call is answered by what earlier calls made of the provider it names. */
  lemma OthersAnswered(a: Aead, key: seq<byte>, es: seq<Event>, i: nat)
    requires AeadLaw(a) && WellKeyed(key, es) && i < |es| && !es[i].Create?
    ensures var refusal := Refusal(Described(a, key, es, i, es[i].id), es[i]);
            ReplyTo(a, key, es, i) == if refusal.Some? then refusal.value else Done
  {
    SealingIsFaithful(a, key, es[i]);
    StoreIsAsDescribed(a, key, es, i, es[i].id);
    AnsweredFromView(After(a, key, es, i), es[i], SealedSecret(a, key, es[i]));
  }

  // ---------- Ownership ----------

  /** New ids are new. */
  predicate FreshId<S>(rows: map<Id, Row<S>>, e: Event) {
    e.Create? ==> e.newId !in rows
  }

  /** The providers of one client. */
  function RowsOf<S>(rows: map<Id, Row<S>>, client: Id): (r: map<Id, Row<S>>) {
    map id | id in rows && rows[id].client == client :: rows[id]
  }

  lemma PutOther<S>(rows: map<Id, Row<S>>, id: Id, row: Row<S>, client: Id)
    requires row.client != client && (id in rows ==> rows[id].client != client)
    ensures RowsOf(rows[id := row], client) == RowsOf(rows, client)
  {}

  lemma RemoveOther<S>(rows: map<Id, Row<S>>, id: Id, client: Id)
    requires id in rows ==> rows[id].client != client
    ensures RowsOf(rows - {id}, client) == RowsOf(rows, client)
  {}

  /** A call made for one client leaves every other client's providers exactly as they are. */
  lemma OtherClientsUntouched<S>(rows: map<Id, Row<S>>, e: Event, sealed: Option<S>, client: Id)
    requires FreshId(rows, e) && e.client != client
    ensures RowsOf(Perform(rows, e, sealed).0, client) == RowsOf(rows, client)
  {
    if Perform(rows, e, sealed).0 != rows {
      match e
      case Create(own, name, details, _, enabled, _, newId, _, _) =>
        PutOther(rows, newId, Row(own, name, details, sealed.value, enabled), client);
      case Update(id, _, details, secret, enabled, _, _, _) =>
        var kept := if secret == [] then rows[id].secret else sealed.value;
        PutOther(rows, id, rows[id].(details := details, secret := kept, enabled := enabled), client);
      case Enable(id, _, _) => PutOther(rows, id, rows[id].(enabled := true), client);
      case Disable(id, _, _) => PutOther(rows, id, rows[id].(enabled := false), client);
      case Delete(id, _, _) => RemoveOther(rows, id, client);
    }
  }

  /** The same answer, but a provider of another client is simply not found. */
  predicate SameAnswer(r: Reply, alone: Reply) {
    r == alone || (r == ClientMismatch && alone == NotFound)
  }

  lemma OwnNames<S>(rows: map<Id, Row<S>>, client: Id, name: string)
    ensures NameTaken(rows, client, name) == NameTaken(RowsOf(rows, client), client, name)
  {
    var own := RowsOf(rows, client);
    if id :| id in rows && rows[id].client == client && rows[id].name == name { assert id in own; }
  }

  lemma OwnOwnership<S>(rows: map<Id, Row<S>>, id: Id, client: Id, faults: set<Fault>)
    ensures var r, alone := OwnershipError(rows, id, client, faults),
            OwnershipError(RowsOf(rows, client), id, client, faults);
            (r.None? <==> alone.None?) && (r.Some? ==> SameAnswer(r.value, alone.value))
    ensures OwnershipError(rows, id, client, faults).None? ==> id in rows && id in RowsOf(rows, client)
  {}

  lemma PutOwn<S>(rows: map<Id, Row<S>>, id: Id, row: Row<S>)
    ensures RowsOf(rows[id := row], row.client) == RowsOf(rows, row.client)[id := row]
  {}

  lemma RemoveOwn<S>(rows: map<Id, Row<S>>, id: Id, client: Id)
    ensures RowsOf(rows - {id}, client) == RowsOf(rows, client) - {id}
  {}

  /** On its own client's providers a call does what it does when there are no others. */
  lemma AloneAlike<S>(rows: map<Id, Row<S>>, e: Event, sealed: Option<S>)
    requires FreshId(rows, e)
    ensures var r, alone := Perform(rows, e, sealed), Perform(RowsOf(rows, e.client), e, sealed);
            RowsOf(r.0, e.client) == alone.0 && SameAnswer(r.1, alone.1)
  {
    match e
    case Create(client, name, details, _, enabled, _, newId, _, _) =>
      OwnNames(rows, client, name);
      if sealed.Some? { PutOwn(rows, newId, Row(client, name, details, sealed.value, enabled)); }
    case Update(id, client, details, secret, enabled, _, _, faults) =>
      OwnOwnership(rows, id, client, faults);
      if OwnershipError(rows, id, client, faults).None? && (secret == [] || sealed.Some?) {
        var kept := if secret == [] then rows[id].secret else sealed.value;
        PutOwn(rows, id, rows[id].(details := details, secret := kept, enabled := enabled));
      }
    case Enable(id, client, faults) => SetOwn(rows, id, client, true, faults);
    case Disable(id, client, faults) => SetOwn(rows, id, client, false, faults);
    case Delete(id, client, faults) =>
      OwnOwnership(rows, id, client, faults);
      RemoveOwn(rows, id, client);
  }

  lemma SetOwn<S>(rows: map<Id, Row<S>>, id: Id, client: Id, enabled: bool, faults: set<Fault>)
    ensures var r, alone := SetEnabled(rows, id, client, enabled, faults),
            SetEnabled(RowsOf(rows, client), id, client, enabled, faults);
            RowsOf(r.0, client) == alone.0 && SameAnswer(r.1, alone.1)
  {
    OwnOwnership(rows, id, client, faults);
    if OwnershipError(rows, id, client, faults).None? { PutOwn(rows, id, rows[id].(enabled := enabled)); }
  }

  /** The calls made for one client among the first `i`. */
  function EventsOf(es: seq<Event>, i: nat, client: Id): (own: seq<Event>)
    requires i <= |es|
  {
    if i == 0 then [] else EventsOf(es, i - 1, client) + if es[i - 1].client == client then [es[i - 1]] else []
  }

  lemma {:induction false} AfterPrefix(a: Aead, key: seq<byte>, es: seq<Event>, fs: seq<Event>, i: nat)
    requires i <= |es| && i <= |fs| && es[..i] == fs[..i]
    ensures After(a, key, es, i) == After(a, key, fs, i)
  {
    if i == 0 {
    } else {
      assert es[..i - 1] == es[..i][..i - 1] == fs[..i - 1];
      assert es[i - 1] == es[..i][i - 1] == fs[i - 1];
      AfterPrefix(a, key, es, fs, i - 1);
    }
  }

  lemma AfterUnfolds(a: Aead, key: seq<byte>, es: seq<Event>, i: nat, rows: Stored, e: Event)
    requires i < |es| && rows == After(a, key, es, i) && e == es[i]
    ensures After(a, key, es, i + 1) == Perform(rows, e, SealedSecret(a, key, e)).0
    ensures ReplyTo(a, key, es, i) == Perform(rows, e, SealedSecret(a, key, e)).1
  {}

  lemma AfterOneMore(a: Aead, key: seq<byte>, es: seq<Event>, e: Event, rows: Stored)
    requires rows == After(a, key, es, |es|)
    ensures After(a, key, es + [e], |es| + 1) == Perform(rows, e, SealedSecret(a, key, e)).0
    ensures ReplyTo(a, key, es + [e], |es|) == Perform(rows, e, SealedSecret(a, key, e)).1
  {
    AfterAppended(a, key, es, e);
    AfterUnfolds(a, key, es + [e], |es|, rows, e);
  }

  lemma AfterAppended(a: Aead, key: seq<byte>, es: seq<Event>, e: Event)
    ensures After(a, key, es + [e], |es|) == After(a, key, es, |es|)
  {
    assert (es + [e])[..|es|] == es[..|es|];
    AfterPrefix(a, key, es + [e], es, |es|);
  }

  ghost predicate NewIdAt(a: Aead, key: seq<byte>, es: seq<Event>, i: nat)
    requires i < |es|
  {
    FreshId(After(a, key, es, i), es[i])
  }

  ghost predicate NewIds(a: Aead, key: seq<byte>, es: seq<Event>) {
    forall i {:trigger NewIdAt(a, key, es, i)} :: 0 <= i < |es| ==> NewIdAt(a, key, es, i)
  }

  /** What becomes of one client's providers if the other clients' calls are skipped. */
  function Alone(a: Aead, key: seq<byte>, es: seq<Event>, i: nat, client: Id): (rows: Stored)
    requires i <= |es|
  {
    if i == 0 then map[]
    else if es[i - 1].client != client then Alone(a, key, es, i - 1, client)
    else Perform(Alone(a, key, es, i - 1, client), es[i - 1], SealedSecret(a, key, es[i - 1])).0
  }

  lemma AloneNext<S>(rows: map<Id, Row<S>>, e: Event, sealed: Option<S>, client: Id)
    requires FreshId(rows, e)
    ensures RowsOf(Perform(rows, e, sealed).0, client)
            == if e.client == client then Perform(RowsOf(rows, client), e, sealed).0 else RowsOf(rows, client)
  {
    if e.client == client { AloneAlike(rows, e, sealed); } else { OtherClientsUntouched(rows, e, sealed, client); }
  }

  lemma {:induction false} OthersMakeNoDifference(a: Aead, key: seq<byte>, es: seq<Event>, i: nat, client: Id)
    requires NewIds(a, key, es) && i <= |es|
    ensures RowsOf(After(a, key, es, i), client) == Alone(a, key, es, i, client)
  {
    if i == 0 {
    } else {
      OthersMakeNoDifference(a, key, es, i - 1, client);
      assert NewIdAt(a, key, es, i - 1);
      AloneNext(After(a, key, es, i - 1), es[i - 1], SealedSecret(a, key, es[i - 1]), client);
    }
  }

  /** Skipping calls is running the others. */
  lemma {:induction false} SkippingIsLeavingOut(a: Aead, key: seq<byte>, es: seq<Event>, i: nat, client: Id)
    requires i <= |es|
    ensures After(a, key, EventsOf(es, i, client), |EventsOf(es, i, client)|) == Alone(a, key, es, i, client)
  {
    if i == 0 {
    } else {
      var own := EventsOf(es, i - 1, client);
      SkippingIsLeavingOut(a, key, es, i - 1, client);
      if es[i - 1].client == client {
        AfterOneMore(a, key, own, es[i - 1], Alone(a, key, es, i - 1, client));
      } else {
        assert EventsOf(es, i, client) == own;
      }
    }
  }

  /**
   Over every run with new ids, one client's providers are what they would be had only that client's
   calls been made.
   */
  lemma ClientsAreIndependent(a: Aead, key: seq<byte>, es: seq<Event>, i: nat, client: Id)
    requires NewIds(a, key, es) && i <= |es|
    ensures var own := EventsOf(es, i, client);
            RowsOf(After(a, key, es, i), client) == After(a, key, own, |own|)
  {
    OthersMakeNoDifference(a, key, es, i, client);
    SkippingIsLeavingOut(a, key, es, i, client);
  }

  /** ... and so are the answers it gets, but that another client's provider is told apart from a missing one. */
  lemma AnswersAreIndependent(a: Aead, key: seq<byte>, es: seq<Event>, i: nat)
    requires NewIds(a, key, es) && i < |es|
    ensures var own := EventsOf(es, i, es[i].client);
            SameAnswer(ReplyTo(a, key, es, i), ReplyTo(a, key, own + [es[i]], |own|))
  {
    var e, own := es[i], EventsOf(es, i, es[i].client);
    ClientsAreIndependent(a, key, es, i, e.client);
    assert NewIdAt(a, key, es, i);
    AloneAlike(After(a, key, es, i), e, SealedSecret(a, key, e));
    AfterOneMore(a, key, own, e, RowsOf(After(a, key, es, i), e.client));
  }
}
