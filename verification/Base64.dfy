/**
 Unpadded base64 (RFC 4648, section 3.2), parameterised by its 64-character
 alphabet: section 4 for password hashes, section 5 for cookies and sealed
 secrets. Decoding is as lenient as Go's `RawStdEncoding`/`RawURLEncoding`: line
 breaks are skipped wherever they occur and left-over low bits are not checked.
 */
module Base64 {
  import opened Prelude

  predicate IsLineBreak(c: char) {
    c == '\r' || c == '\n'
  }

  predicate IsAlphanumeric(c: char) {
    'A' <= c <= 'Z' || 'a' <= c <= 'z' || '0' <= c <= '9'
  }

  /** The last two of the 64 characters; the first 62 are always A-Z, a-z, 0-9. */
  datatype Symbols = Symbols(plus: char, slash: char)

  predicate IsAlphabet(a: Symbols) {
    && a.plus != a.slash
    && !IsAlphanumeric(a.plus) && !IsLineBreak(a.plus)
    && !IsAlphanumeric(a.slash) && !IsLineBreak(a.slash)
  }

  type Alphabet = a: Symbols | IsAlphabet(a) witness Symbols('+', '/')

  const STD: Alphabet := Symbols('+', '/')
  const URL: Alphabet := Symbols('-', '_')

  predicate InAlphabet(a: Alphabet, c: char) {
    IsAlphanumeric(c) || c == a.plus || c == a.slash
  }

  function Symbol(a: Alphabet, d: nat): (c: char)
    requires d < 64
    ensures InAlphabet(a, c)
  {
    if d < 26 then 'A' + d as char
    else if d < 52 then 'a' + (d - 26) as char
    else if d < 62 then '0' + (d - 52) as char
    else if d == 62 then a.plus
    else a.slash
  }

  /** The four digits three bytes are spread over. */
  function Group(a: Alphabet, x: byte, y: byte, z: byte): (s: string)
    ensures |s| == 4 && forall i :: 0 <= i < |s| ==> InAlphabet(a, s[i])
  {
    [Symbol(a, x / 4), Symbol(a, x % 4 * 16 + y / 16), Symbol(a, y % 16 * 4 + z / 64), Symbol(a, z % 64)]
  }

  function Encode(a: Alphabet, b: seq<byte>): (s: string)
    ensures forall i :: 0 <= i < |s| ==> InAlphabet(a, s[i])
    ensures |s| == (4 * |b| + 2) / 3
  {
    if |b| == 0 then ""
    else if |b| == 1 then
      [Symbol(a, b[0] / 4), Symbol(a, b[0] % 4 * 16)]
    else if |b| == 2 then
      [Symbol(a, b[0] / 4), Symbol(a, b[0] % 4 * 16 + b[1] / 16), Symbol(a, b[1] % 16 * 4)]
    else Group(a, b[0], b[1], b[2]) + Encode(a, b[3..])
  }

  /** The value of a base64 digit, when `c` is one. */
  function Digit(a: Alphabet, c: char): (d: Option<nat>)
    ensures d.Some? <==> InAlphabet(a, c)
    ensures d.Some? ==> d.value < 64 && Symbol(a, d.value) == c
  {
    if 'A' <= c <= 'Z' then Some((c - 'A') as nat)
    else if 'a' <= c <= 'z' then Some((c - 'a') as nat + 26)
    else if '0' <= c <= '9' then Some((c - '0') as nat + 52)
    else if c == a.plus then Some(62)
    else if c == a.slash then Some(63)
    else None
  }

  function SkipLineBreaks(s: string): (r: string) {
    if s == "" then ""
    else if IsLineBreak(s[0]) then SkipLineBreaks(s[1..])
    else [s[0]] + SkipLineBreaks(s[1..])
  }

  function FirstByte(d0: nat, d1: nat): (x: byte)
    requires d0 < 64 && d1 < 64
  {
    d0 * 4 + d1 / 16
  }

  function SecondByte(d1: nat, d2: nat): (y: byte)
    requires d1 < 64 && d2 < 64
  {
    d1 % 16 * 16 + d2 / 4
  }

  function ThirdByte(d2: nat, d3: nat): (z: byte)
    requires d2 < 64 && d3 < 64
  {
    d2 % 4 * 64 + d3
  }

  function DecodeGroup(a: Alphabet, c0: char, c1: char, c2: char, c3: char): (r: Option<seq<byte>>)
    ensures r.Some? ==> |r.value| == 3
  {
    var d0, d1, d2, d3 := Digit(a, c0), Digit(a, c1), Digit(a, c2), Digit(a, c3);
    if d0.None? || d1.None? || d2.None? || d3.None? then None
    else Some([FirstByte(d0.value, d1.value), SecondByte(d1.value, d2.value), ThirdByte(d2.value, d3.value)])
  }

  /** Two or three digits make up one or two bytes; the last digit's low bits are ignored. */
  function DecodeTail(a: Alphabet, s: string): (r: Option<seq<byte>>)
    requires 2 <= |s| <= 3
    ensures r.Some? ==> |r.value| == |s| - 1
  {
    var d0, d1 := Digit(a, s[0]), Digit(a, s[1]);
    if d0.None? || d1.None? then None
    else if |s| == 2 then Some([FirstByte(d0.value, d1.value)])
    else
      var d2 := Digit(a, s[2]);
      if d2.None? then None
      else Some([FirstByte(d0.value, d1.value), SecondByte(d1.value, d2.value)])
  }

  function DecodeQuanta(a: Alphabet, s: string): (r: Option<seq<byte>>) {
    if |s| == 0 then Some([])
    else if |s| == 1 then None
    else if |s| < 4 then DecodeTail(a, s)
    else
      var group, rest := DecodeGroup(a, s[0], s[1], s[2], s[3]), DecodeQuanta(a, s[4..]);
      if group.None? || rest.None? then None else Some(group.value + rest.value)
  }

  function Decode(a: Alphabet, s: string): (r: Option<seq<byte>>) {
    DecodeQuanta(a, SkipLineBreaks(s))
  }

  lemma DigitOf(a: Alphabet, i: nat)
    requires i < 64
    ensures Digit(a, Symbol(a, i)) == Some(i)
  {}

  /** Three bytes are recovered from the four digits they are spread over. */
  lemma Regroup(x: byte, y: byte, z: byte)
    ensures x / 4 < 64 && x % 4 * 16 + y / 16 < 64 && y % 16 * 4 + z / 64 < 64
    ensures x / 4 * 4 + (x % 4 * 16 + y / 16) / 16 == x
    ensures (x % 4 * 16 + y / 16) % 16 * 16 + (y % 16 * 4 + z / 64) / 4 == y
    ensures (y % 16 * 4 + z / 64) % 4 * 64 + z % 64 == z
  {}

  lemma LastByte(a: Alphabet, x: byte)
    ensures DecodeQuanta(a, Encode(a, [x])) == Some([x])
  {
    DigitOf(a, x / 4);
    DigitOf(a, x % 4 * 16);
    Regroup(x, 0, 0);
  }

  lemma LastTwoBytes(a: Alphabet, x: byte, y: byte)
    ensures DecodeQuanta(a, Encode(a, [x, y])) == Some([x, y])
  {
    DigitOf(a, x / 4);
    DigitOf(a, x % 4 * 16 + y / 16);
    DigitOf(a, y % 16 * 4);
    Regroup(x, y, 0);
    assert FirstByte(x / 4, x % 4 * 16 + y / 16) == x && SecondByte(x % 4 * 16 + y / 16, y % 16 * 4) == y;
  }

  lemma DecodedGroup(a: Alphabet, x: byte, y: byte, z: byte)
    ensures var s := Group(a, x, y, z); DecodeGroup(a, s[0], s[1], s[2], s[3]) == Some([x, y, z])
  {
    DigitOf(a, x / 4);
    DigitOf(a, x % 4 * 16 + y / 16);
    DigitOf(a, y % 16 * 4 + z / 64);
    DigitOf(a, z % 64);
    Regroup(x, y, z);
  }

  lemma OneMoreGroup(a: Alphabet, b: seq<byte>, tail: string)
    requires |b| >= 3 && DecodeQuanta(a, tail) == Some(b[3..])
    ensures DecodeQuanta(a, Group(a, b[0], b[1], b[2]) + tail) == Some(b)
  {
    var s := Group(a, b[0], b[1], b[2]);
    DecodedGroup(a, b[0], b[1], b[2]);
    assert (s + tail)[4..] == tail;
    assert b == [b[0], b[1], b[2]] + b[3..];
  }

  lemma {:induction false} QuantaRoundTrip(a: Alphabet, b: seq<byte>)
    ensures DecodeQuanta(a, Encode(a, b)) == Some(b)
  {
    if |b| == 0 {
    } else if |b| == 1 {
      assert b == [b[0]];
      LastByte(a, b[0]);
    } else if |b| == 2 {
      assert b == [b[0], b[1]];
      LastTwoBytes(a, b[0], b[1]);
    } else {
      QuantaRoundTrip(a, b[3..]);
      OneMoreGroup(a, b, Encode(a, b[3..]));
    }
  }

  lemma {:induction false} NothingToSkip(a: Alphabet, s: string)
    requires forall i :: 0 <= i < |s| ==> InAlphabet(a, s[i])
    ensures SkipLineBreaks(s) == s
  {
    if s == "" {
    } else {
      NothingToSkip(a, s[1..]);
      assert InAlphabet(a, s[0]);
    }
  }

  /** Every byte string, of every length, survives encoding and decoding. */
  lemma RoundTrip(a: Alphabet, b: seq<byte>)
    ensures Decode(a, Encode(a, b)) == Some(b)
  {
    NothingToSkip(a, Encode(a, b));
    QuantaRoundTrip(a, b);
  }

  // ---------- Other spellings ----------

  /** Four digits are recovered from the three bytes they make up. */
  lemma Spread(d0: nat, d1: nat, d2: nat, d3: nat)
    requires d0 < 64 && d1 < 64 && d2 < 64 && d3 < 64
    ensures var x, y, z := FirstByte(d0, d1), SecondByte(d1, d2), ThirdByte(d2, d3);
            x / 4 == d0 && x % 4 * 16 + y / 16 == d1 && y % 16 * 4 + z / 64 == d2 && z % 64 == d3
  {}

  lemma GroupOfDigits(a: Alphabet, d0: nat, d1: nat, d2: nat, d3: nat)
    requires d0 < 64 && d1 < 64 && d2 < 64 && d3 < 64
    ensures Group(a, FirstByte(d0, d1), SecondByte(d1, d2), ThirdByte(d2, d3))
            == [Symbol(a, d0), Symbol(a, d1), Symbol(a, d2), Symbol(a, d3)]
  {
    Spread(d0, d1, d2, d3);
  }

  lemma GroupOfDecoded(a: Alphabet, c0: char, c1: char, c2: char, c3: char)
    requires DecodeGroup(a, c0, c1, c2, c3).Some?
    ensures var g := DecodeGroup(a, c0, c1, c2, c3).value; Group(a, g[0], g[1], g[2]) == [c0, c1, c2, c3]
  {
    GroupOfDigits(a, Digit(a, c0).value, Digit(a, c1).value, Digit(a, c2).value, Digit(a, c3).value);
  }

  /** Four digits and more: the first group, and the rest. */
  lemma FirstGroup(a: Alphabet, b: seq<byte>, s: string)
    requires |s| >= 4 && DecodeQuanta(a, s) == Some(b)
    ensures |b| >= 3 && DecodeQuanta(a, s[4..]) == Some(b[3..])
    ensures [s[0], s[1], s[2], s[3]] == Group(a, b[0], b[1], b[2])
  {
    GroupOfDecoded(a, s[0], s[1], s[2], s[3]);
    assert b[3..] == DecodeQuanta(a, s[4..]).value;
  }

  lemma EncodedFrom(a: Alphabet, b: seq<byte>, s: string)
    requires |s| >= 4 && |b| >= 3 && [s[0], s[1], s[2], s[3]] == Group(a, b[0], b[1], b[2])
             && s[4..] == Encode(a, b[3..])
    ensures s == Encode(a, b)
  {
    assert s == [s[0], s[1], s[2], s[3]] + s[4..];
  }

  lemma ShortSpelling(a: Alphabet, s: string)
    requires DecodeQuanta(a, s).Some? && |DecodeQuanta(a, s).value| % 3 == 0
    ensures s == "" || |s| >= 4
  {}

  /** `s` decodes to `b`, and is its encoding. */
  ghost predicate Spells(a: Alphabet, s: string, b: seq<byte>) {
    DecodeQuanta(a, s) == Some(b) ==> s == Encode(a, b)
  }

  lemma NoGroups(a: Alphabet, b: seq<byte>, s: string)
    requires |b| == 0
    ensures Spells(a, s, b)
  {}

  lemma NextGroup(a: Alphabet, b: seq<byte>, s: string)
    requires |b| >= 3 && |b| % 3 == 0 && (|s| >= 4 ==> Spells(a, s[4..], b[3..]))
    ensures Spells(a, s, b)
  {
    if DecodeQuanta(a, s) == Some(b) {
      ShortSpelling(a, s);
      FirstGroup(a, b, s);
      EncodedFrom(a, b, s);
    }
  }

  /** Whole groups of three bytes have one spelling. */
  lemma {:induction false} WholeGroups(a: Alphabet, b: seq<byte>, s: string, n: nat)
    requires |b| == 3 * n
    ensures Spells(a, s, b)
    decreases n
  {
    if n == 0 {
      NoGroups(a, b, s);
    } else {
      if |s| >= 4 { WholeGroups(a, b[3..], s[4..], n - 1); }
      NextGroup(a, b, s);
    }
  }

  /** The encoding of a byte string that ends in a group of one or two, but for a bit no byte is made of. */
  function Respelled(a: Alphabet, b: seq<byte>): (s: string)
    requires |b| % 3 != 0
  {
    if |b| == 1 then [Symbol(a, b[0] / 4), Symbol(a, b[0] % 4 * 16 + 1)]
    else if |b| == 2 then [Symbol(a, b[0] / 4), Symbol(a, b[0] % 4 * 16 + b[1] / 16), Symbol(a, b[1] % 16 * 4 + 1)]
    else Group(a, b[0], b[1], b[2]) + Respelled(a, b[3..])
  }

  lemma OneRespelled(a: Alphabet, x: byte)
    ensures DecodeQuanta(a, Respelled(a, [x])) == Some([x]) && Respelled(a, [x]) != Encode(a, [x])
  {
    DigitOf(a, x / 4);
    DigitOf(a, x % 4 * 16);
    DigitOf(a, x % 4 * 16 + 1);
    assert (x % 4 * 16 + 1) / 16 == x % 4;
  }

  lemma TwoRespelled(a: Alphabet, x: byte, y: byte)
    ensures DecodeQuanta(a, Respelled(a, [x, y])) == Some([x, y]) && Respelled(a, [x, y]) != Encode(a, [x, y])
  {
    DigitOf(a, x / 4);
    DigitOf(a, x % 4 * 16 + y / 16);
    DigitOf(a, y % 16 * 4);
    DigitOf(a, y % 16 * 4 + 1);
    Regroup(x, y, 0);
    assert (y % 16 * 4 + 1) / 4 == y % 16;
  }

  lemma MoreRespelled(a: Alphabet, x: byte, y: byte, z: byte, s: string, t: string)
    requires s != t
    ensures Group(a, x, y, z) + s != Group(a, x, y, z) + t
  {
    assert (Group(a, x, y, z) + s)[4..] == s && (Group(a, x, y, z) + t)[4..] == t;
  }

  lemma LastRespelled(a: Alphabet, b: seq<byte>)
    requires |b| == 1 || |b| == 2
    ensures DecodeQuanta(a, Respelled(a, b)) == Some(b) && Respelled(a, b) != Encode(a, b)
  {
    if |b| == 1 {
      assert b == [b[0]];
      OneRespelled(a, b[0]);
    } else {
      assert b == [b[0], b[1]];
      TwoRespelled(a, b[0], b[1]);
    }
  }

  lemma {:induction false} RespelledDecodesAlike(a: Alphabet, b: seq<byte>)
    requires |b| % 3 != 0
    ensures DecodeQuanta(a, Respelled(a, b)) == Some(b)
  {
    if |b| < 3 {
      LastRespelled(a, b);
    } else {
      RespelledDecodesAlike(a, b[3..]);
      OneMoreGroup(a, b, Respelled(a, b[3..]));
    }
  }

  lemma {:induction false} RespelledDiffers(a: Alphabet, b: seq<byte>)
    requires |b| % 3 != 0
    ensures Respelled(a, b) != Encode(a, b)
  {
    if |b| < 3 {
      LastRespelled(a, b);
    } else {
      RespelledDiffers(a, b[3..]);
      MoreRespelled(a, b[0], b[1], b[2], Respelled(a, b[3..]), Encode(a, b[3..]));
    }
  }

  /** The decoder ignores unused bits, so a byte string has one spelling exactly when it leaves none unused. */
  lemma OneSpellingIff(a: Alphabet, b: seq<byte>)
    ensures (forall s :: DecodeQuanta(a, s) == Some(b) ==> s == Encode(a, b)) <==> |b| % 3 == 0
  {
    if |b| % 3 == 0 {
      forall s | DecodeQuanta(a, s) == Some(b) ensures s == Encode(a, b) {
        WholeGroups(a, b, s, |b| / 3);
        assert Spells(a, s, b);
      }
    } else {
      RespelledDecodesAlike(a, b);
      RespelledDiffers(a, b);
    }
  }
}
