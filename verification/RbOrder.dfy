/** Orders on node sequences, as `rb_add` and `rb_find` see them. */
module RbOrder {
  import opened Lists
  import opened RbTheory

  lemma {:induction false} RemoveMiddle(a: seq<int>, x: int, b: seq<int>)
    requires x !in a
    ensures Remove(a + [x] + b, x) == a + b
  {
    if a == [] {
      assert a + [x] + b == [x] + b;
    } else {
      RemoveMiddle(a[1..], x, b);
      assert (a + [x] + b)[1..] == a[1..] + [x] + b;
      assert a + b == [a[0]] + (a[1..] + b);
    }
  }

  /** A strict order whose incomparable elements are interchangeable. */
  ghost predicate WeakOrder(less: (int, int) -> bool) {
    && (forall a, b :: less(a, b) ==> !less(b, a))
    && (forall a, b, c :: less(a, c) ==> less(a, b) || less(b, c))
  }

  ghost predicate Sorted(less: (int, int) -> bool, s: seq<int>) {
    forall i, j :: 0 <= i < j < |s| ==> !less(s[j], s[i])
  }

  /** Nothing in `a` is greater than `x`, everything in `b` is. */
  ghost predicate Splits(less: (int, int) -> bool, a: seq<int>, x: int, b: seq<int>) {
    (forall i :: 0 <= i < |a| ==> !less(x, a[i])) && (forall i :: 0 <= i < |b| ==> less(x, b[i]))
  }

  lemma {:induction false} SortedInsert(less: (int, int) -> bool, a: seq<int>, x: int, b: seq<int>)
    requires WeakOrder(less) && Sorted(less, a + b) && Splits(less, a, x, b)
    ensures Sorted(less, a + [x] + b)
  {
    var s, u := a + b, a + [x] + b;
    forall i, j | 0 <= i < j < |u| ensures !less(u[j], u[i]) {
      var i', j' := if i <= |a| then i else i - 1, if j <= |a| then j else j - 1;
      if i != |a| && j != |a| {
        assert u[i] == s[i'] && u[j] == s[j'];
      } else if j == |a| {
        assert u[i] == a[i];
      } else {
        assert u[j] == b[j - |a| - 1];
      }
    }
  }

  lemma {:induction false} RemoveSplit(s: seq<int>, x: int) returns (a: seq<int>, b: seq<int>)
    requires x in s
    ensures s == a + [x] + b && Remove(s, x) == a + b
  {
    if s[0] == x {
      a, b := [], s[1..];
    } else {
      assert s == [s[0]] + s[1..];
      a, b := RemoveSplit(s[1..], x);
      a := [s[0]] + a;
      assert s == a + [x] + b && Remove(s, x) == a + b;
    }
  }

  /** Taking a node out of a sorted sequence leaves it sorted. */
  lemma {:induction false} SortedRemove(less: (int, int) -> bool, s: seq<int>, x: int)
    requires Sorted(less, s) && x in s
    ensures Sorted(less, Remove(s, x))
  {
    var a, b := RemoveSplit(s, x);
    var u := a + b;
    forall i, j | 0 <= i < j < |u| ensures !less(u[j], u[i]) {
      assert u[i] == s[if i < |a| then i else i + 1] && u[j] == s[if j < |a| then j else j + 1];
    }
  }

  /** Going down past a node keeps the split: towards its left subtree if `x` is less
      than it, towards the right one otherwise. */
  lemma {:induction false} SplitsDown(less: (int, int) -> bool, k: Path, t: Tree, x: int)
    requires t.Node? && Splits(less, Before(k), x, After(k))
    requires WeakOrder(less) && Sorted(less, Before(k) + Inorder(t) + After(k))
    ensures less(x, t.id) ==> Splits(less, Before(k), x, [t.id] + Inorder(t.right) + After(k))
    ensures !less(x, t.id) ==> Splits(less, Before(k) + Inorder(t.left) + [t.id], x, After(k))
  {
    var a, l, r, b := Before(k), Inorder(t.left), Inorder(t.right), After(k);
    var s := a + (l + [t.id] + r) + b;
    assert s[|a| + |l|] == t.id;
    if less(x, t.id) {
      forall i | 0 <= i < |r| ensures less(x, r[i]) {
        assert s[|a| + |l| + 1 + i] == r[i];
      }
    } else {
      forall i | 0 <= i < |l| ensures !less(x, l[i]) {
        assert s[|a| + i] == l[i];
      }
    }
  }

  /** `cmp` places a key in `s`: positive before it, zero on matches, negative after. */
  ghost predicate Places(cmp: int -> int, s: seq<int>) {
    && (forall i, j :: 0 <= i < j < |s| && cmp(s[i]) < 0 ==> cmp(s[j]) < 0)
    && (forall i, j :: 0 <= i < j < |s| && cmp(s[j]) > 0 ==> cmp(s[i]) > 0)
  }

  ghost predicate Misses(cmp: int -> int, s: seq<int>) { forall i :: 0 <= i < |s| ==> cmp(s[i]) != 0 }

  lemma {:induction false} MissesDown(cmp: int -> int, k: Path, t: Tree)
    requires t.Node?
    requires Places(cmp, Before(k) + Inorder(t) + After(k)) && Misses(cmp, Before(k)) && Misses(cmp, After(k))
    ensures cmp(t.id) < 0 ==> Misses(cmp, [t.id] + Inorder(t.right) + After(k))
    ensures cmp(t.id) > 0 ==> Misses(cmp, Before(k) + Inorder(t.left) + [t.id])
  {
    var a, l, r, b := Before(k), Inorder(t.left), Inorder(t.right), After(k);
    var s := a + (l + [t.id] + r) + b;
    assert s[|a| + |l|] == t.id;
    if cmp(t.id) < 0 {
      forall i | 0 <= i < |r| ensures cmp(r[i]) != 0 { assert s[|a| + |l| + 1 + i] == r[i]; }
    }
    if cmp(t.id) > 0 {
      forall i | 0 <= i < |l| ensures cmp(l[i]) != 0 { assert s[|a| + i] == l[i]; }
    }
  }

  /** Where a node is: the path to it and the subtree below it. */
  lemma {:induction false} Locate(k: Path, t: Tree, x: int) returns (k': Path, t': Tree)
    requires x in Ids(t)
    ensures Plug(k', t') == Plug(k, t) && t'.Node? && t'.id == x
    decreases t
  {
    if t.id == x {
      return k, t;
    } else if x in Ids(t.left) {
      k', t' := Locate(InLeft(t.id, t.color, t.right, k), t.left, x);
    } else {
      k', t' := Locate(InRight(t.id, t.color, t.left, k), t.right, x);
    }
  }

  lemma EndOfPrefix(a: seq<int>, x: int, b: seq<int>)
    ensures var s := a + [x] + b; |a| < |s| && s[|a|] == x && At(s, |a| - 1) == At(a, |a| - 1)
  {
  }

  lemma EndOfSum(a: seq<int>, b: seq<int>)
    ensures b == [] ==> a + b == a
    ensures b != [] ==> At(a + b, |a + b| - 1) == b[|b| - 1]
  {
  }

  /** A node's place in the order is where its path says. */
  lemma {:induction false} PlaceOf(k: Path, t: Tree)
    requires t.Node? && Apart(k, t)
    ensures Inorder(Plug(k, t)) == (Before(k) + Inorder(t.left)) + [t.id] + (Inorder(t.right) + After(k))
    ensures t.id !in Before(k) + Inorder(t.left)
    ensures Remove(Inorder(Plug(k, t)), t.id) == (Before(k) + Inorder(t.left)) + (Inorder(t.right) + After(k))
  {
    var a, b := Before(k) + Inorder(t.left), Inorder(t.right) + After(k);
    assert Inorder(Plug(k, t)) == a + [t.id] + b by {
      InorderPlug(k, t);
      Around(Before(k), Inorder(t.left), t.id, Inorder(t.right), After(k));
    }
    assert t.id !in a by {
      DistinctPlug(k, t);
      DistinctInorder(Plug(k, t));
      UniqueSplit(a, t.id, b);
    }
    RemoveMiddle(a, t.id, b);
  }

  lemma Around(a: seq<int>, l: seq<int>, x: int, r: seq<int>, b: seq<int>)
    ensures a + (l + [x] + r) + b == (a + l) + [x] + (r + b)
  {
  }

  lemma {:induction false} RemoveSubset(s: seq<int>, x: int)
    ensures forall y :: y in Remove(s, x) ==> y in s
  {
    if s != [] { RemoveSubset(s[1..], x); }
  }

  /** The element of `s` after its `i`-th, 0 standing for none. */
  function At(s: seq<int>, i: int): int { if 0 <= i < |s| then s[i] else 0 }

  lemma {:induction false} UniqueIndex(t: Tree, i: nat, j: nat)
    requires Distinct(t) && i < |Inorder(t)| && j < |Inorder(t)| && Inorder(t)[i] == Inorder(t)[j]
    ensures i == j
  {
    if i != j {
      DistinctInorder(t);
      RepeatNotUnique(Inorder(t), if i < j then i else j, if i < j then j else i);
    }
  }

  lemma {:induction false} RepeatNotUnique(s: seq<int>, i: nat, j: nat)
    requires i < j < |s| && s[i] == s[j]
    ensures !Unique(multiset(s))
  {
    var r := s[i + 1..];
    assert r[j - i - 1] == s[j] && s[j] in r;
    assert s == s[..i] + [s[i]] + r;
    UniqueSplit(s[..i], s[i], r);
  }
}
