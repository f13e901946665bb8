/** The little arithmetic the rate limiter needs: products, remainders and greatest common divisors. */
module Numbers {

  lemma MulMono(p: int, x: int, y: int)
    requires p >= 0 && x <= y
    ensures p * x <= p * y
  {}

  lemma MulAdd(p: int, x: int, y: int)
    ensures p * (x + y) == p * x + p * y
  {}

  lemma MulAssoc(p: int, x: int, y: int)
    ensures p * x * y == p * (x * y)
  {}

  /** Quotient and remainder are the only ones there are. */
  lemma DivModUnique(x: int, p: int, q: int, r: int)
    requires p > 0 && x == p * q + r && 0 <= r < p
    ensures x / p == q && x % p == r
  {
    var q', r' := x / p, x % p;
    assert x == p * q' + r';
    if q' < q {
      MulMono(p, q' + 1, q);
      MulAdd(p, q', 1);
    } else if q' > q {
      MulMono(p, q + 1, q');
      MulAdd(p, q, 1);
    }
  }

  lemma DivMono(x: int, y: int, p: int)
    requires p > 0 && x <= y
    ensures x / p <= y / p
  {
    if x / p > y / p {
      MulMono(p, y / p + 1, x / p);
      MulAdd(p, y / p, 1);
      assert false;
    }
  }

  lemma MultipleOf(p: int, k: int)
    requires p > 0
    ensures (p * k) % p == 0
  {
    DivModUnique(p * k, p, k, 0);
  }

  lemma MultipleSum(x: int, y: int, p: int)
    requires p > 0 && x % p == 0 && y % p == 0
    ensures (x + y) % p == 0
  {
    var k, m := x / p, y / p;
    assert x == p * k && y == p * m;
    MulAdd(p, k, m);
    DivModUnique(x + y, p, k + m, 0);
  }

  lemma MultipleTimes(x: int, k: int, p: int)
    requires p > 0 && x % p == 0
    ensures (x * k) % p == 0
  {
    var m := x / p;
    assert x == p * m;
    MulAssoc(p, m, k);
    DivModUnique(x * k, p, m * k, 0);
  }

  /** A positive multiple is at least the number itself. */
  lemma LeastMultiple(x: int, p: int)
    requires p > 0 && x % p == 0 && x > 0
    ensures x >= p
  {
    if x / p <= 0 { MulMono(p, x / p, 0); }
    MulMono(p, 1, x / p);
  }

  function Gcd(a: nat, b: nat): (g: nat)
    requires a > 0 || b > 0
    ensures g > 0
    decreases b
  {
    if b == 0 then a else Gcd(b, a % b)
  }

  lemma {:induction false} GcdDivides(a: nat, b: nat)
    requires a > 0 || b > 0
    ensures a % Gcd(a, b) == 0 && b % Gcd(a, b) == 0
    decreases b
  {
    if b == 0 {
      MultipleOf(a, 1);
      DivModUnique(0, a, 0, 0);
    } else {
      var g, q, r := Gcd(a, b), a / b, a % b;
      GcdDivides(b, r);
      MultipleTimes(b, q, g);
      MultipleSum(b * q, r, g);
      assert a == b * q + r;
    }
  }

  /** Bezout's identity. */
  lemma {:induction false} Bezout(a: nat, b: nat) returns (x: int, y: int)
    requires a > 0 || b > 0
    ensures a * x + b * y == Gcd(a, b)
    decreases b
  {
    if b == 0 {
      x, y := 1, 0;
    } else {
      var u, v := Bezout(b, a % b);
      x, y := v, u - a / b * v;
      BezoutStep(a, b, a / b, a % b, u, v);
    }
  }

  lemma BezoutStep(a: int, b: int, q: int, r: int, u: int, v: int)
    requires a == b * q + r
    ensures a * v + b * (u - q * v) == b * u + r * v
  {
    assert a * v == b * q * v + r * v;
    MulAssoc(b, q, v);
    MulAdd(b, u, -(q * v));
    assert b * -(q * v) == -(b * (q * v));
  }

  /** The multiples of `a` leave, modulo `p`, every multiple of the greatest common divisor: here the largest. */
  lemma LargestRemainder(a: nat, p: nat) returns (y: nat)
    requires a > 0 && p > 0
    ensures (a * y) % p == p - Gcd(a, p)
  {
    var x, v := Bezout(a, p);
    var q := (-x) / p;
    y := (-x) % p;
    var g := Gcd(a, p);
    GcdDivides(a, p);
    LeastMultiple(p, g);
    assert y == -x + p * -q;
    MulAdd(a, -x, p * -q);
    assert a * -x == -(a * x) == p * v - g;
    assert a * (p * -q) == p * (a * -q) by { Swap(a, p, -q); }
    MulAdd(p, v, a * -q);
    MulAdd(p, v + a * -q, -1);
    DivModUnique(a * y, p, v + a * -q - 1, p - g);
  }

  lemma Swap(a: int, p: int, q: int)
    ensures a * (p * q) == p * (a * q)
  {}

  lemma GcdOfMultiple(a: nat, b: nat)
    requires b > 0 && a % b == 0
    ensures Gcd(a, b) == b
  {
    assert Gcd(b, 0) == b;
  }
}
