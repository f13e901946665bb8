/**
 The stored form of a password:
 `$argon2id$v=<version>$m=<memory>,t=<iterations>,p=<parallelism>$<b64 salt>$<b64 hash>`.
 Two printers write it and one parser reads it back.
 */
module PasswordHash {
  import opened Prelude
  import opened Text
  import Base64

  /** `argon2.IDKey(password, salt, time, memory, threads, keyLen)`, as a function. */
  type Argon2 = (string, seq<byte>, nat, nat, nat, nat) -> seq<byte>

  /** The one law assumed of it: the key has the length asked for. */
  ghost predicate KeyLengthLaw(idKey: Argon2) {
    forall password, salt, time, memory, threads, keyLen ::
      |idKey(password, salt, time, memory, threads, keyLen)| == keyLen
  }

  datatype Params = Params(memory: nat, iterations: nat, parallelism: nat)
  datatype Encoded = Encoded(params: Params, salt: seq<byte>, hash: seq<byte>)

  const ARGON2_VERSION := 0x13

  function PrintParams(p: Params): (s: string) {
    "m=" + Decimal(p.memory) + "," + ("t=" + Decimal(p.iterations) + "," + ("p=" + Decimal(p.parallelism)))
  }

  /** The format string both printers share. */
  function Print(e: Encoded): (s: string) {
    Sections("v=" + Decimal(ARGON2_VERSION), PrintParams(e.params), Base64.Encode(Base64.STD, e.salt),
             Base64.Encode(Base64.STD, e.hash))
  }

  function Sections(version: string, params: string, salt: string, hash: string): (s: string) {
    "$argon2id$" + (version + "$" + (params + "$" + (salt + "$" + hash)))
  }

  // ---------- Parsing ----------

  /** One `name=value` segment; an unknown name is skipped, the parallelism is cut to eight bits. */
  function ReadParam(p: Params, kv: string): (r: Option<Params>) {
    var pair := SplitFirst(kv, '=');
    if |pair| != 2 then None
    else
      var v := ParseUint32(pair[1]);
      if v.None? then None
      else if pair[0] == "m" then Some(p.(memory := v.value))
      else if pair[0] == "t" then Some(p.(iterations := v.value))
      else if pair[0] == "p" then Some(p.(parallelism := v.value % 256))
      else Some(p)
  }

  /** All segments, in order. */
  function ReadParams(p: Params, kvs: seq<string>): (r: Option<Params>)
    decreases |kvs|
  {
    if |kvs| == 0 then Some(p)
    else
      var q := ReadParam(p, kvs[0]);
      if q.None? then None else ReadParams(q.value, kvs[1..])
  }

  function Parse(s: string): (r: Option<Encoded>) {
    var parts := Split(s, '$');
    if |parts| != 6 || parts[1] != "argon2id" then None
    else
      var params := ReadParams(Params(0, 0, 0), Split(parts[3], ','));
      var salt := Base64.Decode(Base64.STD, parts[4]);
      var hash := Base64.Decode(Base64.STD, parts[5]);
      if params.None? || salt.None? || hash.None? then None else Some(Encoded(params.value, salt.value, hash.value))
  }

  /** `Panics`: the key derivation refuses zero iterations, zero threads or a key of length zero. */
  datatype Verdict = Unreadable | Panics | Compared(equal: bool)

  function VerifyAgainst(idKey: Argon2, password: string, r: Option<Encoded>): (v: Verdict) {
    if r.None? then Unreadable
    else
      var p := r.value.params;
      if p.iterations < 1 || p.parallelism < 1 || |r.value.hash| < 1 then Panics
      else Compared(idKey(password, r.value.salt, p.iterations, p.memory, p.parallelism, |r.value.hash|)
                    == r.value.hash)
  }

  method VerifyArgon2id(idKey: Argon2, password: string, encoded: string) returns (v: Verdict)
    ensures v == VerifyAgainst(idKey, password, Parse(encoded))
  {
    var parts := Split(encoded, '$');
    if |parts| != 6 || parts[1] != "argon2id" { return Unreadable; }
    var memory, iterations, parallelism: nat := 0, 0, 0;
    var kvs := Split(parts[3], ',');
    for i := 0 to |kvs|
      invariant ReadParams(Params(0, 0, 0), kvs) == ReadParams(Params(memory, iterations, parallelism), kvs[i..])
    {
      assert kvs[i..][0] == kvs[i] && kvs[i..][1..] == kvs[i + 1..];
      var pair := SplitFirst(kvs[i], '=');
      if |pair| != 2 { return Unreadable; }
      var value := ParseUint32(pair[1]);
      if value.None? { return Unreadable; }
      if pair[0] == "m" {
        memory := value.value;
      } else if pair[0] == "t" {
        iterations := value.value;
      } else if pair[0] == "p" {
        parallelism := value.value % 256;
      }
    }
    var salt := Base64.Decode(Base64.STD, parts[4]);
    if salt.None? { return Unreadable; }
    var stored := Base64.Decode(Base64.STD, parts[5]);
    if stored.None? { return Unreadable; }
    if iterations < 1 || parallelism < 1 || |stored.value| < 1 { return Panics; }
    var computed := idKey(password, salt.value, iterations, memory, parallelism, |stored.value|);
    return Compared(computed == stored.value);
  }

  // ---------- Round trip ----------

  lemma DigitsAvoid(n: nat, c: char)
    requires !IsDigit(c)
    ensures c !in Decimal(n)
  {}

  lemma Base64Avoids(b: seq<byte>, c: char)
    requires !Base64.InAlphabet(Base64.STD, c)
    ensures c !in Base64.Encode(Base64.STD, b)
  {}

  lemma ReadDecimal(p: Params, c: char, n: nat)
    requires c != '=' && n < UINT32_LIMIT
    ensures ReadParam(p, [c, '='] + Decimal(n))
            == Some(if c == 'm' then p.(memory := n) else if c == 't' then p.(iterations := n)
                    else if c == 'p' then p.(parallelism := n % 256) else p)
  {
    SplitFirstOfPair([c], '=', Decimal(n));
    assert [c, '='] + Decimal(n) == [c] + ['='] + Decimal(n);
    DecimalRoundTrip(n);
  }

  function PrintedParams(p: Params): (kvs: seq<string>) {
    ["m=" + Decimal(p.memory)] + (["t=" + Decimal(p.iterations)] + (["p=" + Decimal(p.parallelism)] + []))
  }

  lemma SplitPrintedParams(p: Params)
    ensures Split(PrintParams(p), ',') == PrintedParams(p)
  {
    var m, t, q := "m=" + Decimal(p.memory), "t=" + Decimal(p.iterations), "p=" + Decimal(p.parallelism);
    DigitsAvoid(p.memory, ',');
    DigitsAvoid(p.iterations, ',');
    DigitsAvoid(p.parallelism, ',');
    SplitCons(m, ',', t + [','] + q);
    SplitCons(t, ',', q);
    SplitLast(q, ',');
  }

  lemma ParamsAvoidDollar(p: Params)
    ensures '$' !in PrintParams(p)
  {
    DigitsAvoid(p.memory, '$');
    DigitsAvoid(p.iterations, '$');
    DigitsAvoid(p.parallelism, '$');
  }

  lemma ReadOneOf(p: Params, kv: string, rest: seq<string>)
    ensures ReadParams(p, [kv] + rest) == var q := ReadParam(p, kv); if q.None? then None else ReadParams(q.value, rest)
  {
    assert ([kv] + rest)[1..] == rest;
  }

  lemma ReadPrintedParams(p: Params)
    requires p.memory < UINT32_LIMIT && p.iterations < UINT32_LIMIT && p.parallelism < 256
    ensures ReadParams(Params(0, 0, 0), PrintedParams(p)) == Some(p)
  {
    var m, t, q := "m=" + Decimal(p.memory), "t=" + Decimal(p.iterations), "p=" + Decimal(p.parallelism);
    ReadDecimal(Params(0, 0, 0), 'm', p.memory);
    ReadDecimal(Params(p.memory, 0, 0), 't', p.iterations);
    ReadDecimal(Params(p.memory, p.iterations, 0), 'p', p.parallelism);
    ReadThree(Params(0, 0, 0), Params(p.memory, 0, 0), Params(p.memory, p.iterations, 0), m, t, q);
  }

  lemma ReadThree(p: Params, p1: Params, p2: Params, m: string, t: string, q: string)
    requires ReadParam(p, m) == Some(p1) && ReadParam(p1, t) == Some(p2)
    ensures ReadParams(p, [m] + ([t] + ([q] + []))) == ReadParam(p2, q)
  {
    ReadOneOf(p, m, [t] + ([q] + []));
    ReadOneOf(p1, t, [q] + []);
    ReadOneOf(p2, q, []);
  }

  lemma SplitTwo(s: string, h: string)
    requires '$' !in s && '$' !in h
    ensures Split(s + ['$'] + h, '$') == [s] + [h]
  {
    SplitCons(s, '$', h);
    SplitLast(h, '$');
  }

  lemma SplitFour(v: string, p: string, s: string, h: string)
    requires '$' !in v && '$' !in p && '$' !in s && '$' !in h
    ensures Split(v + ['$'] + (p + ['$'] + (s + ['$'] + h)), '$') == [v] + ([p] + ([s] + [h]))
  {
    SplitTwo(s, h);
    PrependTwo(v, p, s + ['$'] + h);
  }

  lemma PrependTwo(v: string, p: string, tail: string)
    requires '$' !in v && '$' !in p
    ensures Split(v + ['$'] + (p + ['$'] + tail), '$') == [v] + ([p] + Split(tail, '$'))
  {
    SplitCons(p, '$', tail);
    SplitCons(v, '$', p + ['$'] + tail);
  }

  lemma SplitHeader(rest: string)
    ensures Split("$argon2id$" + rest, '$') == [""] + (["argon2id"] + Split(rest, '$'))
  {
    assert "$argon2id$" + rest == "" + ['$'] + ("argon2id" + ['$'] + rest);
    PrependTwo("", "argon2id", rest);
  }

  /** What is printed falls into six parts. */
  lemma SplitSections(v: string, p: string, s: string, h: string)
    requires '$' !in v && '$' !in p && '$' !in s && '$' !in h
    ensures Split(Sections(v, p, s, h), '$') == [""] + (["argon2id"] + ([v] + ([p] + ([s] + [h]))))
  {
    SplitFour(v, p, s, h);
    SplitHeader(v + ['$'] + (p + ['$'] + (s + ['$'] + h)));
  }

  lemma SplitPrinted(e: Encoded)
    ensures var parts := Split(Print(e), '$');
            && |parts| == 6 && parts[1] == "argon2id" && parts[3] == PrintParams(e.params)
            && parts[4] == Base64.Encode(Base64.STD, e.salt) && parts[5] == Base64.Encode(Base64.STD, e.hash)
  {
    VersionAvoidsDollar();
    ParamsAvoidDollar(e.params);
    Base64Avoids(e.salt, '$');
    Base64Avoids(e.hash, '$');
    SplitSections("v=" + Decimal(ARGON2_VERSION), PrintParams(e.params), Base64.Encode(Base64.STD, e.salt),
                  Base64.Encode(Base64.STD, e.hash));
  }

  lemma VersionAvoidsDollar()
    ensures '$' !in "v=" + Decimal(ARGON2_VERSION)
  {
    DigitsAvoid(ARGON2_VERSION, '$');
  }

  /** Printing and parsing recovers every field: any 32-bit memory and iterations, 8-bit parallelism, salt and hash. */
  lemma PhcRoundTrip(e: Encoded)
    requires e.params.memory < UINT32_LIMIT && e.params.iterations < UINT32_LIMIT && e.params.parallelism < 256
    ensures |Split(Print(e), '$')| == 6
    ensures Parse(Print(e)) == Some(e)
  {
    SplitPrinted(e);
    SplitPrintedParams(e.params);
    ReadPrintedParams(e.params);
    Base64.RoundTrip(Base64.STD, e.salt);
    Base64.RoundTrip(Base64.STD, e.hash);
  }

  // ---------- The two printers ----------

  const KEY_LENGTH := 32

  function Derive(idKey: Argon2, password: string, salt: seq<byte>): (key: seq<byte>) {
    idKey(password, salt, 3, 64 * 1024, 4, KEY_LENGTH)
  }

  /** hashArgon2id: the printer of the change-password flow. */
  function HashArgon2id(idKey: Argon2, password: string, salt: seq<byte>): (s: string) {
    Print(Encoded(Params(64 * 1024, 3, 4), salt, idKey(password, salt, 3, 64 * 1024, 4, 32)))
  }

  /** hashPasswordArgon2id: the printer of the bootstrap. */
  function HashPasswordArgon2id(idKey: Argon2, password: string, salt: seq<byte>): (s: string) {
    Print(Encoded(Params(65_536, 3, 4), salt, idKey(password, salt, 3, 65_536, 4, 32)))
  }

  /** Against a string from either printer, a password verifies exactly when it derives the same key. */
  lemma VerifiesExactly(idKey: Argon2, password: string, candidate: string, salt: seq<byte>)
    requires KeyLengthLaw(idKey)
    ensures VerifyAgainst(idKey, candidate, Parse(HashArgon2id(idKey, password, salt)))
            == Compared(Derive(idKey, candidate, salt) == Derive(idKey, password, salt))
    ensures VerifyAgainst(idKey, candidate, Parse(HashPasswordArgon2id(idKey, password, salt)))
            == Compared(Derive(idKey, candidate, salt) == Derive(idKey, password, salt))
  {
    PhcRoundTrip(Encoded(Params(65_536, 3, 4), salt, Derive(idKey, password, salt)));
  }
}
