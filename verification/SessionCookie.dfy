/**
 The signed cookie that carries a web login from the login handler to the
 callback handler: `<b64url(json)>.<b64url(hmac)>`.
 */
module SessionCookie {
  import opened Prelude
  import opened Text
  import Base64

  /** What the callback needs to know about the login that started the flow. */
  datatype Session = Session(
    state: string,
    client: Id,
    provider: string,
    redirectUri: string,
    scope: Option<string>)

  /**
   The JSON library and HMAC-SHA256 under the server's signing key, as functions.
   `unmarshal` answers `None` for a payload that is not a session object.
   */
  datatype Codec = Codec(
    marshal: Session -> seq<byte>,
    unmarshal: seq<byte> -> Option<Session>,
    hmac: string -> seq<byte>)

  /** The one law assumed of the JSON library: a marshalled session is read back. */
  ghost predicate JsonLaw(c: Codec) {
    forall s: Session :: c.unmarshal(c.marshal(s)) == Some(s)
  }

  datatype CookieError =
    | MalformedCookie | BadSignatureEncoding | SignatureMismatch | BadPayloadEncoding | MalformedPayload
  datatype Decoded = Accepted(session: Session) | Rejected(error: CookieError)

  /** The text that is signed. */
  function Payload(c: Codec, s: Session): (p: string)
    ensures '.' !in p
    ensures Base64.Decode(Base64.URL, p) == Some(c.marshal(s))
  {
    Base64.RoundTrip(Base64.URL, c.marshal(s));
    Base64.Encode(Base64.URL, c.marshal(s))
  }

  function EncodeSession(c: Codec, s: Session): (cookie: string) {
    var payload := Payload(c, s);
    payload + "." + Base64.Encode(Base64.URL, c.hmac(payload))
  }

  function DecodeSession(c: Codec, cookie: string): (d: Decoded) {
    var parts := SplitFirst(cookie, '.');
    if |parts| != 2 then Rejected(MalformedCookie)
    else
      var sig := Base64.Decode(Base64.URL, parts[1]);
      if sig.None? then Rejected(BadSignatureEncoding)
      else if sig.value != c.hmac(parts[0]) then Rejected(SignatureMismatch)
      else
        var payload := Base64.Decode(Base64.URL, parts[0]);
        if payload.None? then Rejected(BadPayloadEncoding)
        else
          var s := c.unmarshal(payload.value);
          if s.None? then Rejected(MalformedPayload) else Accepted(s.value)
  }

  /**
   The part of `cookie` whose signature checks out, if any. This is what the
   secrecy of the signing key is about: nobody but the server can make it `Some`
   of a text the server did not sign.
   */
  function VerifiedPayload(c: Codec, cookie: string): (p: Option<string>) {
    var parts := SplitFirst(cookie, '.');
    if |parts| == 2 && Base64.Decode(Base64.URL, parts[1]) == Some(c.hmac(parts[0])) then Some(parts[0]) else None
  }

  /** Every session survives its cookie. */
  lemma SessionRoundTrip(c: Codec, s: Session)
    requires c.unmarshal(c.marshal(s)) == Some(s)
    ensures DecodeSession(c, EncodeSession(c, s)) == Accepted(s)
  {
    var payload := Payload(c, s);
    var sig := c.hmac(payload);
    Base64.RoundTrip(Base64.URL, sig);
    SplitFirstOfPair(payload, '.', Base64.Encode(Base64.URL, sig));
    assert EncodeSession(c, s) == payload + ['.'] + Base64.Encode(Base64.URL, sig);
  }

  /**
   A cookie is accepted only if its signature verifies, and then the session it
   yields is determined by the signed text alone: when that text was produced for
   session `s`, the cookie yields `s` whatever else was done to it.
   */
  lemma AcceptedSessionWasSigned(c: Codec, cookie: string, s: Session)
    requires JsonLaw(c)
    ensures DecodeSession(c, cookie).Accepted? ==> VerifiedPayload(c, cookie).Some?
    ensures VerifiedPayload(c, cookie) == Some(Payload(c, s)) ==> DecodeSession(c, cookie) == Accepted(s)
  {}
}
