/** Powers of two, divisibility and remainders. */
module Arithmetic {

  function Pow2(n: nat): (p: nat)
    ensures p >= 1
  {
    if n == 0 then 1 else 2 * Pow2(n - 1)
  }

  lemma Scale(q: nat, k: int)
    requires q > 0
    ensures k >= 1 ==> q * k >= q
    ensures k <= -1 ==> q * k <= -(q as int)
  {
    if k >= 1 {
      assert q * k >= q * 1;
    } else {
      assert k <= -1 ==> q * k <= q * -1;
    }
  }

  lemma Regroup<T>(a: seq<T>, b: seq<T>, c: seq<T>)
    ensures a + b + c == a + (b + c)
  {
  }

  /** A quotient and a remainder that fit are the quotient and the remainder. */
  lemma Quotient(q: nat, d: nat, r: nat, n: nat)
    requires r < q && n == q * d + r
    ensures n / q == d && n % q == r
  {
    var e, s := n / q, n % q;
    assert n == q * e + s;
    assert q * (d - e) == s - r;
    Scale(q, d - e);
  }

  // ----- remainders modulo a prime -----

  predicate Prime(q: nat) { q >= 2 && forall d | 2 <= d < q :: q % d != 0 }

  ghost predicate Divides(q: nat, x: int) { exists k: int :: x == q * k }

  /** Equal remainders and a difference divisible by q are the same thing. */
  lemma Congruent(q: nat, x: int, y: int)
    requires q > 0
    ensures x % q == y % q <==> Divides(q, x - y)
  {
    var d, e := x / q, y / q;
    assert x == q * d + x % q && y == q * e + y % q;
    if x % q == y % q {
      assert x - y == q * (d - e);
    }
    if k: int :| x - y == q * k {
      assert q * (k - d + e) == x % q - y % q;
      Scale(q, k - d + e);
    }
  }

  /** In a group of prime order a non-zero scalar can be cancelled. */
  lemma {:induction false} Cancels(q: nat, a: nat, x: int)
    requires Prime(q) && 0 < a < q && Divides(q, a * x)
    ensures Divides(q, x)
    decreases a
  {
    if a > 1 {
      var k, r := q / a, q % a;
      assert q == a * k + r && r != 0;
      var c: int :| a * x == q * c;
      assert (a * k) * x == q * (k * c) by { assert (a * k) * x == k * (a * x) == k * (q * c); }
      assert r * x == q * (x - k * c) by { assert r * x == (q - a * k) * x == q * x - (a * k) * x; }
      Cancels(q, r, x);
    }
  }

  lemma Small(q: nat, x: int)
    requires Divides(q, x) && -(q as int) < x < q
    ensures x == 0
  {
    var k: int :| x == q * k;
    Scale(q, k);
  }

  lemma Reorder(x: int, a: int, b: int)
    ensures x * a * b == a * b * x == x * b * a
  {
  }

  lemma Factor(a: int, b: int, x: int, y: int)
    ensures x * a * b - y * b * a == a * (b * (x - y))
  {
    assert a * (b * (x - y)) == a * (b * x - b * y);
    assert a * (b * x) == x * a * b && a * (b * y) == y * b * a;
  }

  /** Reducing before multiplying changes nothing. */
  lemma Reduced(q: nat, x: int, s: int)
    requires q > 0
    ensures (x % q) * s % q == x * s % q
  {
    var d := x / q;
    assert x == q * d + x % q;
    assert (x % q) * s - x * s == q * (-d * s) by { assert (x % q) * s == (x - q * d) * s; }
    Congruent(q, (x % q) * s, x * s);
  }
}
