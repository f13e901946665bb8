/** The few operations of Go's `strings` and `strconv` packages that the server's text formats use. */
module Text {
  import opened Prelude

  /** The index of the first `c` in `s`, or `|s|` when there is none. */
  function IndexOf(s: string, c: char): (i: nat)
    ensures i <= |s|
    ensures i < |s| ==> s[i] == c
    ensures forall k :: 0 <= k < i ==> s[k] != c
  {
    if s == "" || s[0] == c then 0 else 1 + IndexOf(s[1..], c)
  }

  /** `strings.SplitN(s, c, 2)`: at most two parts, separated at the first `c`. */
  function SplitFirst(s: string, c: char): (parts: seq<string>)
    ensures |parts| == if c in s then 2 else 1
  {
    var i := IndexOf(s, c);
    if i == |s| then [s] else [s[..i], s[i + 1..]]
  }

  /** `strings.Split(s, c)`: all parts. */
  function Split(s: string, c: char): (parts: seq<string>)
    ensures |parts| >= 1
    decreases |s|
  {
    var i := IndexOf(s, c);
    if i == |s| then [s] else [s[..i]] + Split(s[i + 1..], c)
  }

  lemma IndexAfterPrefix(p: string, c: char, t: string)
    requires c !in p
    ensures IndexOf(p + [c] + t, c) == |p|
  {
    var s := p + [c] + t;
    assert s[|p|] == c;
    assert forall k :: 0 <= k < |p| ==> s[k] == p[k];
  }

  lemma SplitFirstOfPair(p: string, c: char, t: string)
    requires c !in p
    ensures SplitFirst(p + [c] + t, c) == [p, t]
  {
    var s := p + [c] + t;
    IndexAfterPrefix(p, c, t);
    assert s[..|p|] == p && s[|p| + 1..] == t;
  }

  /** A part without the separator is split off. */
  lemma SplitCons(p: string, c: char, t: string)
    requires c !in p
    ensures Split(p + [c] + t, c) == [p] + Split(t, c)
  {
    var s := p + [c] + t;
    IndexAfterPrefix(p, c, t);
    assert s[..|p|] == p && s[|p| + 1..] == t;
  }

  lemma SplitLast(p: string, c: char)
    requires c !in p
    ensures Split(p, c) == [p]
  {
    assert IndexOf(p, c) == |p|;
  }

  predicate IsDigit(c: char) {
    '0' <= c <= '9'
  }

  /** `%d` for a non-negative number. */
  function Decimal(n: nat): (s: string)
    ensures |s| >= 1
    ensures forall i :: 0 <= i < |s| ==> IsDigit(s[i])
  {
    var d := [('0' as int + n % 10) as char];
    if n < 10 then d else Decimal(n / 10) + d
  }

  /** The value of a string of decimal digits; `None` if some character is not a digit. */
  function DigitsValue(s: string): (r: Option<nat>) {
    if s == "" then Some(0)
    else
      var c := s[|s| - 1];
      var high := DigitsValue(s[..|s| - 1]);
      if high.None? || !IsDigit(c) then None
      else Some(high.value * 10 + (c as int - '0' as int))
  }

  const UINT32_LIMIT := 0x1_0000_0000

  /** `strconv.ParseUint(s, 10, 32)`. */
  function ParseUint32(s: string): (r: Option<nat>)
    ensures r.Some? ==> r.value < UINT32_LIMIT
  {
    if s == "" then None
    else
      var v := DigitsValue(s);
      if v.Some? && v.value < UINT32_LIMIT then v else None
  }

  lemma {:induction false} DecimalValue(n: nat)
    ensures DigitsValue(Decimal(n)) == Some(n)
  {
    var s := Decimal(n);
    if n < 10 {
      assert s[..|s| - 1] == "";
    } else {
      DecimalValue(n / 10);
      assert s[..|s| - 1] == Decimal(n / 10);
    }
  }

  /** Every 32-bit number is read back from its decimal form. */
  lemma DecimalRoundTrip(n: nat)
    ensures ParseUint32(Decimal(n)) == if n < UINT32_LIMIT then Some(n) else None
  {
    DecimalValue(n);
  }
}
