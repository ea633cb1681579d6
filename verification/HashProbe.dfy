/** The probe order of the runtime's hash map (src/runtime/lib/stb_ds.c): buckets of eight
    slots, each scanned whole, the buckets at triangular distances from the first. */
module HashProbe {
  import opened Arith

  const BUCKET: nat := 8

  function Triangle(k: nat): nat { if k == 0 then 0 else Triangle(k - 1) + k }

  /** The bucket looked at in round `k`. */
  function BucketAt(b: nat, m: nat, k: nat): nat
    requires m > 0
  {
    (b + Triangle(k)) % m
  }

  /** Where probing starts: `hash & (slot_count - 1)`. */
  function Start(h: nat, m: nat): nat
    requires m > 0
  {
    h % (BUCKET * m)
  }

  /** The slot looked at in step `t`: within a bucket from the starting offset to the end,
      then from its beginning. */
  function Slot(h: nat, m: nat, t: nat): nat
    requires m > 0
  {
    BUCKET * BucketAt(Start(h, m) / BUCKET, m, t / BUCKET) + (Start(h, m) % BUCKET + t % BUCKET) % BUCKET
  }

  lemma SlotInRange(h: nat, m: nat, t: nat)
    requires m > 0
    ensures Slot(h, m, t) < BUCKET * m
  {
  }

  // ---- Triangular steps modulo a power of two visit every bucket ----

  lemma {:induction false} DoubleTriangle(k: nat)
    ensures 2 * Triangle(k) == k * (k + 1)
  {
    if k > 0 { DoubleTriangle(k - 1); }
  }

  lemma OddOdd(x: nat, y: nat)
    ensures ((2 * x + 1) * (2 * y + 1)) % 2 == 1
  {
    assert (2 * x + 1) * (2 * y + 1) == 2 * (x * (2 * y + 1) + y) + 1;
  }

  lemma OddTimes(a: nat, b: nat)
    requires a % 2 == 1 && (a * b) % 2 == 0
    ensures b % 2 == 0
  {
    OddOdd(a / 2, b / 2);
  }

  /** A power of two that divides a product with an odd factor divides the other factor. */
  lemma {:induction false} OddFactor(a: nat, b: nat, q: nat, s: nat)
    requires a % 2 == 1 && a * b == q * Pow2(s)
    ensures exists c: nat :: b == c * Pow2(s)
  {
    if s == 0 {
      assert b == b * Pow2(0);
    } else {
      assert a * b == 2 * (q * Pow2(s - 1));
      OddTimes(a, b);
      var d := b / 2;
      assert a * d == q * Pow2(s - 1) by { assert a * b == 2 * (a * d); }
      OddFactor(a, d, q, s - 1);
      var c: nat :| d == c * Pow2(s - 1);
      assert b == c * Pow2(s);
    }
  }

  /** A positive multiple of Pow2(s) is not below it. */
  lemma MultipleNotBelow(b: nat, c: nat, p: nat)
    requires b == c * p && 0 < b
    ensures p <= b
  {
    if c >= 1 { assert c * p >= p; }
  }

  lemma NegativeTimes(q: int, m: nat)
    requires m > 0
    ensures q < 0 ==> q * m < 0
  {
  }

  lemma SameResidue(x: nat, y: nat, m: nat)
    requires m > 0 && x <= y && x % m == y % m
    ensures exists q: nat :: y - x == q * m
  {
    var q := y / m - x / m;
    assert y - x == q * m;
    NegativeTimes(q, m);
  }

  lemma TriangleGap(i: nat, j: nat)
    requires i <= j
    ensures 2 * Triangle(j) - 2 * Triangle(i) == (j - i) * (i + j + 1)
  {
    DoubleTriangle(i);
    DoubleTriangle(j);
  }

  lemma {:induction false} TriangleMonotone(i: nat, j: nat)
    requires i <= j
    ensures Triangle(i) <= Triangle(j)
    decreases j
  {
    if i < j { TriangleMonotone(i, j - 1); }
  }

  /** The product below is not a multiple of twice the number of buckets: one factor is odd
      and both are too small. */
  lemma NoSuchGap(i: nat, j: nat, q: nat, s: nat)
    requires i < j < Pow2(s)
    ensures (j - i) * (i + j + 1) != q * Pow2(s + 1)
  {
    var x, y := j - i, i + j + 1;
    if x * y == q * Pow2(s + 1) {
      assert x + y == 2 * j + 1;
      if x % 2 == 1 {
        OddFactor(x, y, q, s + 1);
        var c: nat :| y == c * Pow2(s + 1);
        MultipleNotBelow(y, c, Pow2(s + 1));
      } else {
        assert y * x == x * y;
        OddFactor(y, x, q, s + 1);
        var c: nat :| x == c * Pow2(s + 1);
        MultipleNotBelow(x, c, Pow2(s + 1));
      }
    }
  }

  lemma TwiceMultiple(d: nat, q: nat, s: nat)
    requires d == q * Pow2(s)
    ensures 2 * d == q * Pow2(s + 1)
  {
    assert Pow2(s + 1) == 2 * Pow2(s);
  }

  /** Two rounds below the number of buckets never meet. */
  lemma BucketsDiffer(b: nat, s: nat, i: nat, j: nat)
    requires i < j < Pow2(s)
    ensures BucketAt(b, Pow2(s), i) != BucketAt(b, Pow2(s), j)
  {
    var m := Pow2(s);
    TriangleMonotone(i, j);
    TriangleGap(i, j);
    if (b + Triangle(i)) % m == (b + Triangle(j)) % m {
      SameResidue(b + Triangle(i), b + Triangle(j), m);
      var q: nat :| (b + Triangle(j)) - (b + Triangle(i)) == q * m;
      TwiceMultiple(Triangle(j) - Triangle(i), q, s);
      NoSuchGap(i, j, q, s);
    }
  }

  /** The buckets of the first `k` rounds. */
  function Visited(b: nat, m: nat, k: nat): set<nat>
    requires m > 0
  {
    if k == 0 then {} else Visited(b, m, k - 1) + {BucketAt(b, m, k - 1)}
  }

  lemma {:induction false} InVisited(b: nat, m: nat, k: nat, x: nat)
    requires m > 0 && x in Visited(b, m, k)
    ensures exists i :: 0 <= i < k && BucketAt(b, m, i) == x
  {
    if x == BucketAt(b, m, k - 1) { } else { InVisited(b, m, k - 1, x); }
  }

  function Below(n: nat): (r: set<int>)
    ensures forall x :: x in r <==> 0 <= x < n
  {
    if n == 0 then {} else Below(n - 1) + {n - 1}
  }

  lemma {:induction false} BelowSize(n: nat)
    ensures |Below(n)| == n
  {
    if n > 0 {
      BelowSize(n - 1);
    }
  }

  lemma {:induction false} VisitedSize(b: nat, s: nat, k: nat)
    requires k <= Pow2(s)
    ensures |Visited(b, Pow2(s), k)| == k && Visited(b, Pow2(s), k) <= Below(Pow2(s))
  {
    if k > 0 {
      VisitedSize(b, s, k - 1);
      var x := BucketAt(b, Pow2(s), k - 1);
      if x in Visited(b, Pow2(s), k - 1) {
        InVisited(b, Pow2(s), k - 1, x);
        var i :| 0 <= i < k - 1 && BucketAt(b, Pow2(s), i) == x;
        BucketsDiffer(b, s, i, k - 1);
      }
    }
  }

  lemma FullSubset(a: set<int>, b: set<int>)
    requires a <= b && |a| == |b|
    ensures a == b
  {
    assert b == a + (b - a);
    assert |b| == |a| + |b - a|;
  }

  /** Every bucket is looked at in one of the first `m` rounds. */
  lemma EveryBucket(b: nat, s: nat, x: nat)
    requires x < Pow2(s)
    ensures exists k :: 0 <= k < Pow2(s) && BucketAt(b, Pow2(s), k) == x
  {
    var m := Pow2(s);
    VisitedSize(b, s, m);
    BelowSize(m);
    FullSubset(Visited(b, m, m), Below(m));
    InVisited(b, m, m, x);
  }

  /** How many slots further, within the bucket, offset `y` is. */
  function Ahead(o: nat, y: nat): nat
    requires o < BUCKET && y < BUCKET
  {
    if y >= o then y - o else y + BUCKET - o
  }

  lemma AheadReaches(o: nat, y: nat)
    requires o < BUCKET && y < BUCKET
    ensures Ahead(o, y) < BUCKET && (o + Ahead(o, y)) % BUCKET == y
  {
  }

  lemma StepParts(k: nat, j: nat)
    requires j < BUCKET
    ensures (BUCKET * k + j) / BUCKET == k && (BUCKET * k + j) % BUCKET == j
  {
  }

  lemma SlotAt(h: nat, m: nat, k: nat, j: nat)
    requires m > 0 && j < BUCKET
    ensures Slot(h, m, BUCKET * k + j) ==
            BUCKET * BucketAt(Start(h, m) / BUCKET, m, k) + (Start(h, m) % BUCKET + j) % BUCKET
  {
    StepParts(k, j);
  }

  /** Every slot is looked at within as many steps as there are slots. */
  lemma EverySlot(h: nat, s: nat, x: nat)
    requires x < BUCKET * Pow2(s)
    ensures exists t :: 0 <= t < BUCKET * Pow2(s) && Slot(h, Pow2(s), t) == x
  {
    var m := Pow2(s);
    var p := Start(h, m);
    EveryBucket(p / BUCKET, s, x / BUCKET);
    var k :| 0 <= k < m && BucketAt(p / BUCKET, m, k) == x / BUCKET;
    var j := Ahead(p % BUCKET, x % BUCKET);
    AheadReaches(p % BUCKET, x % BUCKET);
    SlotAt(h, m, k, j);
    assert Slot(h, m, BUCKET * k + j) == x;
  }
}
