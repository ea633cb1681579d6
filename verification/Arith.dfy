/** Powers of two, multiples and rounding, shared by the models. */
module Arith {

  function Pow2(n: nat): (r: nat)
    ensures r > 0
  {
    if n == 0 then 1 else 2 * Pow2(n - 1)
  }

  lemma {:induction false} Pow2Monotone(a: nat, b: nat)
    requires a <= b
    ensures Pow2(a) <= Pow2(b)
    decreases b
  {
    if a < b { Pow2Monotone(a, b - 1); }
  }

  lemma {:induction false} Pow2Sum(a: nat, b: nat)
    ensures Pow2(a + b) == Pow2(a) * Pow2(b)
    decreases b
  {
    if b > 0 {
      Pow2Sum(a, b - 1);
      assert Pow2(a + b) == 2 * Pow2(a + (b - 1));
      assert Pow2(a) * Pow2(b) == 2 * (Pow2(a) * Pow2(b - 1));
    }
  }

  lemma MulApart(i: int, j: int, s: int)
    requires i < j && s > 0
    ensures i * s + s <= j * s
  {
    assert (j - i - 1) * s >= 0;
    assert j * s == (j - i - 1) * s + i * s + s;
  }

  lemma DivExact(i: int, s: nat)
    requires s > 0
    ensures (i * s) / s == i && (i * s) % s == 0
  {
    var q := (i * s) / s;
    assert i * s == q * s + (i * s) % s;
    if q < i { MulApart(q, i, s); }
    if i < q { MulApart(i, q, s); }
  }

  /** The least multiple of `a` not below `x`. */
  function AlignUp(x: nat, a: nat): nat
    requires a > 0
  {
    (x + a - 1) / a * a
  }

  lemma AlignUpFacts(x: nat, a: nat)
    requires a > 0
    ensures AlignUp(x, a) % a == 0 && x <= AlignUp(x, a) < x + a
  {
    DivExact((x + a - 1) / a, a);
  }

  lemma {:induction false} PowerDivides(k: nat, n: nat)
    requires k <= n
    ensures Pow2(n) % Pow2(k) == 0
  {
    Pow2Sum(n - k, k);
    assert (n - k) + k == n;
    DivExact(Pow2(n - k), Pow2(k));
  }

  lemma AtLeastOnce(k: int, a: nat)
    requires k >= 1
    ensures k * a >= a
  {
    assert k * a == (k - 1) * a + a;
  }

  lemma QuotientNat(x: nat, a: nat)
    requires a > 0
    ensures x / a >= 0
  {
    var q, r := x / a, x % a;
    assert x == q * a + r;
    if q <= -1 { NegativeProduct(q, a); }
  }

  lemma NegativeProduct(q: int, a: nat)
    requires q <= -1
    ensures q * a + a <= 0
  {
    AtLeastOnce(-q, a);
    assert (-q) * a == -(q * a);
  }

  predicate Least(s: set<int>, j: int) { j in s && forall k :: k in s ==> j <= k }

  /** A finite set of numbers has a least member. */
  lemma {:induction false} LeastMember(s: set<int>) returns (j: int)
    requires s != {}
    ensures Least(s, j)
    decreases |s|
  {
    assert (forall x :: x !in s) ==> s == {};
    j :| j in s;
    var t := s - {j};
    if t != {} {
      var i := LeastMember(t);
      assert forall k :: k in s ==> k == j || k in t;
      j := if i < j then i else j;
    } else {
      forall k | k in s ensures j <= k { assert k in t || k == j; }
    }
  }
}
