/** Secrets at rest: base64url(nonce || AES-GCM ciphertext and tag). */
module Envelope {
  import opened Prelude
  import Base64

  /** AES-GCM under a key, as functions of key, nonce and text. */
  datatype Aead = Aead(
    seal: (seq<byte>, seq<byte>, seq<byte>) -> seq<byte>,
    open: (seq<byte>, seq<byte>, seq<byte>) -> Option<seq<byte>>)

  /** The one law assumed of it: opening what was sealed gives the text back. */
  ghost predicate AeadLaw(a: Aead) {
    forall key, nonce, text :: a.open(key, nonce, a.seal(key, nonce, text)) == Some(text)
  }

  const NONCE_SIZE := 12

  /** The key lengths AES accepts. */
  predicate IsAesKey(key: seq<byte>) {
    |key| == 16 || |key| == 24 || |key| == 32
  }

  datatype Unsealed = Opened(text: seq<byte>) | BadEncoding | BadKey | TooShort | NotAuthentic

  /** encrypt; `None` when the key is no AES key. */
  function Encrypt(a: Aead, key: seq<byte>, nonce: seq<byte>, text: seq<byte>): (s: Option<string>) {
    if !IsAesKey(key) then None
    else Some(Base64.Encode(Base64.URL, nonce + a.seal(key, nonce, text)))
  }

  function Decrypt(a: Aead, key: seq<byte>, s: string): (u: Unsealed) {
    var data := Base64.Decode(Base64.URL, s);
    if data.None? then BadEncoding
    else if !IsAesKey(key) then BadKey
    else if |data.value| < NONCE_SIZE then TooShort
    else
      var text := a.open(key, data.value[..NONCE_SIZE], data.value[NONCE_SIZE..]);
      if text.None? then NotAuthentic else Opened(text.value)
  }

  /** On the wire an envelope is the nonce that was drawn for it, followed by the text sealed under that nonce. */
  lemma EnvelopeLayout(a: Aead, key: seq<byte>, nonce: seq<byte>, text: seq<byte>)
    requires IsAesKey(key) && |nonce| == NONCE_SIZE
    ensures Encrypt(a, key, nonce, text).Some?
    ensures var data := Base64.Decode(Base64.URL, Encrypt(a, key, nonce, text).value);
            data.Some? && |data.value| >= NONCE_SIZE
            && data.value[..NONCE_SIZE] == nonce && data.value[NONCE_SIZE..] == a.seal(key, nonce, text)
  {
    Base64.RoundTrip(Base64.URL, nonce + a.seal(key, nonce, text));
  }

  /** Every text, the empty one included, is recovered from its envelope, whatever the nonce. */
  lemma EnvelopeRoundTrip(a: Aead, key: seq<byte>, nonce: seq<byte>, text: seq<byte>)
    requires AeadLaw(a) && IsAesKey(key) && |nonce| == NONCE_SIZE
    ensures Encrypt(a, key, nonce, text).Some?
    ensures Decrypt(a, key, Encrypt(a, key, nonce, text).value) == Opened(text)
  {
    var data := nonce + a.seal(key, nonce, text);
    Base64.RoundTrip(Base64.URL, data);
    assert data[..NONCE_SIZE] == nonce && data[NONCE_SIZE..] == a.seal(key, nonce, text);
  }
}
