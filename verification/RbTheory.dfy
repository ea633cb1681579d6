/** Red-black trees as values: colours, black heights, in-order sequences, and
    the path from a subtree up to the root (the tree with one subtree missing). */
module RbTheory {
  import opened Arith

  datatype Color = Red | Black

  datatype Tree = Leaf | Node(id: int, color: Color, left: Tree, right: Tree)

  /** A tree with a hole. `InLeft(id, c, r, up)` is a node whose left subtree is
      the hole, `InRight` one whose right subtree is; `up` continues to the root. */
  datatype Path =
    | Top
    | InLeft(id: int, color: Color, right: Tree, up: Path)
    | InRight(id: int, color: Color, left: Tree, up: Path)

  function Plug(k: Path, t: Tree): Tree {
    match k
    case Top => t
    case InLeft(id, c, r, up) => Plug(up, Node(id, c, t, r))
    case InRight(id, c, l, up) => Plug(up, Node(id, c, l, t))
  }

  /** The path `k` followed, above its top, by the path `above`. */
  function Compose(k: Path, above: Path): Path {
    match k
    case Top => above
    case InLeft(id, c, r, up) => InLeft(id, c, r, Compose(up, above))
    case InRight(id, c, l, up) => InRight(id, c, l, Compose(up, above))
  }

  /** The node address of the root of a tree, 0 standing for NULL. */
  function Ptr(t: Tree): int { if t.Leaf? then 0 else t.id }

  /** The address of the parent of the hole, `p` when the path is empty. */
  function PathPtr(k: Path, p: int): int { if k.Top? then p else k.id }

  predicate IsRed(t: Tree) { t.Node? && t.color == Red }

  function PathColor(k: Path): Color { if k.Top? then Black else k.color }

  function Paint(t: Tree, c: Color): Tree { if t.Leaf? then Leaf else t.(color := c) }

  // ---- In-order sequences ----

  function Inorder(t: Tree): seq<int> {
    match t
    case Leaf => []
    case Node(id, _, l, r) => Inorder(l) + [id] + Inorder(r)
  }

  /** What precedes the hole in order. */
  function Before(k: Path): seq<int> {
    match k
    case Top => []
    case InLeft(_, _, _, up) => Before(up)
    case InRight(id, _, l, up) => Before(up) + Inorder(l) + [id]
  }

  /** What follows the hole in order. */
  function After(k: Path): seq<int> {
    match k
    case Top => []
    case InLeft(id, _, r, up) => [id] + Inorder(r) + After(up)
    case InRight(_, _, _, up) => After(up)
  }

  lemma {:induction false} InorderPlug(k: Path, t: Tree)
    ensures Inorder(Plug(k, t)) == Before(k) + Inorder(t) + After(k)
  {
    match k
    case Top =>
    case InLeft(id, c, r, up) =>
      InorderPlug(up, Node(id, c, t, r));
      Regroup(Before(up), Inorder(t), [id], Inorder(r), After(up));
    case InRight(id, c, l, up) =>
      InorderPlug(up, Node(id, c, l, t));
      Regroup(Before(up), Inorder(l), [id], Inorder(t), After(up));
  }

  lemma Regroup(a: seq<int>, b: seq<int>, c: seq<int>, d: seq<int>, e: seq<int>)
    ensures a + (b + c + d) + e == a + b + (c + d + e) == (a + b + c) + d + e
  {
  }

  lemma {:induction false} PlugSameInorder(k: Path, t: Tree, t': Tree)
    requires Inorder(t) == Inorder(t')
    ensures Inorder(Plug(k, t)) == Inorder(Plug(k, t'))
  {
    InorderPlug(k, t);
    InorderPlug(k, t');
  }

  lemma {:induction false} PlugCompose(k: Path, above: Path, t: Tree)
    ensures Plug(Compose(k, above), t) == Plug(above, Plug(k, t))
    decreases k
  {
    match k
    case Top =>
    case InLeft(id, c, r, up) => PlugCompose(up, above, Node(id, c, t, r));
    case InRight(id, c, l, up) => PlugCompose(up, above, Node(id, c, l, t));
  }

  // ---- Names ----

  function Ids(t: Tree): set<int> {
    match t
    case Leaf => {}
    case Node(id, _, l, r) => {id} + Ids(l) + Ids(r)
  }

  function PathIds(k: Path): set<int> {
    match k
    case Top => {}
    case InLeft(id, _, r, up) => {id} + Ids(r) + PathIds(up)
    case InRight(id, _, l, up) => {id} + Ids(l) + PathIds(up)
  }

  /** A node address: not NULL. */
  predicate IsAddress(id: int) { 0 < id }

  /** No address occurs twice. */
  predicate Distinct(t: Tree) {
    match t
    case Leaf => true
    case Node(id, _, l, r) =>
      && IsAddress(id) && id !in Ids(l) && id !in Ids(r)
      && Ids(l) !! Ids(r) && Distinct(l) && Distinct(r)
  }

  predicate PathDistinct(k: Path) {
    match k
    case Top => true
    case InLeft(id, _, t, up) =>
      && IsAddress(id) && id !in Ids(t) && id !in PathIds(up)
      && Ids(t) !! PathIds(up) && Distinct(t) && PathDistinct(up)
    case InRight(id, _, t, up) =>
      && IsAddress(id) && id !in Ids(t) && id !in PathIds(up)
      && Ids(t) !! PathIds(up) && Distinct(t) && PathDistinct(up)
  }

  predicate Apart(k: Path, t: Tree) {
    Distinct(t) && PathDistinct(k) && Ids(t) !! PathIds(k)
  }

  lemma {:induction false} DistinctPlug(k: Path, t: Tree)
    ensures Distinct(Plug(k, t)) <==> Apart(k, t)
    ensures Ids(Plug(k, t)) == Ids(t) + PathIds(k)
    decreases k
  {
    match k
    case Top =>
    case InLeft(id, c, r, up) => DistinctPlug(up, Node(id, c, t, r));
    case InRight(id, c, l, up) => DistinctPlug(up, Node(id, c, l, t));
  }

  /** Colours do not matter to names and order. */
  lemma {:induction false} PaintSame(t: Tree, c: Color)
    ensures Distinct(Paint(t, c)) == Distinct(t) && Ids(Paint(t, c)) == Ids(t)
    ensures Inorder(Paint(t, c)) == Inorder(t) && Ptr(Paint(t, c)) == Ptr(t)
  {
  }

  lemma {:induction false} NullIsNoName(t: Tree)
    requires Distinct(t)
    ensures 0 !in Ids(t)
  {
    if t.Node? {
      NullIsNoName(t.left);
      NullIsNoName(t.right);
    }
  }

  lemma {:induction false} InorderIds(t: Tree)
    ensures forall x :: x in Inorder(t) <==> x in Ids(t)
  {
    if t.Node? {
      InorderIds(t.left);
      InorderIds(t.right);
    }
  }

  /** `b` holds node addresses only, each at most once. */
  ghost predicate Unique(b: multiset<int>) {
    forall x :: x in b ==> b[x] == 1 && IsAddress(x)
  }

  lemma {:induction false} UniqueSplit(l: seq<int>, x: int, r: seq<int>)
    ensures Unique(multiset(l + [x] + r)) <==>
            && Unique(multiset(l)) && Unique(multiset(r)) && IsAddress(x)
            && x !in l && x !in r && Foreign(l, r)
  {
    var a, b, c := multiset(l), multiset(r), multiset(l + [x] + r);
    assert c == a + multiset{x} + b;
    assert forall y :: c[y] == a[y] + multiset{x}[y] + b[y];
    assert forall y :: y in l <==> y in a;
    assert forall y :: y in r <==> y in b;
    if Unique(c) {
      forall y | y in a ensures a[y] == 1 && IsAddress(y) && y != x && y !in b { assert y in c; }
      forall y | y in b ensures b[y] == 1 && IsAddress(y) && y != x { assert y in c; }
      assert x in c;
    }
  }

  ghost predicate Foreign(a: seq<int>, b: seq<int>) { forall y :: y in a ==> y !in b }

  lemma {:induction false} DisjointInorder(a: Tree, b: Tree)
    ensures Ids(a) !! Ids(b) ==> Foreign(Inorder(a), Inorder(b))
    ensures Foreign(Inorder(a), Inorder(b)) ==> Ids(a) !! Ids(b)
  {
    InorderIds(a);
    InorderIds(b);
    if Foreign(Inorder(a), Inorder(b)) {
      forall y | y in Ids(a) ensures y !in Ids(b) { assert y in Inorder(a); }
    }
  }

  /** Names are distinct addresses exactly when the in-order sequence says so. */
  lemma {:induction false} DistinctInorder(t: Tree)
    ensures Distinct(t) <==> Unique(multiset(Inorder(t)))
  {
    if t.Node? {
      DistinctInorder(t.left);
      DistinctInorder(t.right);
      DisjointInorder(t.left, t.right);
      UniqueSplit(Inorder(t.left), t.id, Inorder(t.right));
      assert t.id in Ids(t.left) <==> t.id in Inorder(t.left) by { InorderIds(t.left); }
      assert t.id in Ids(t.right) <==> t.id in Inorder(t.right) by { InorderIds(t.right); }
    }
  }

  // ---- The red-black properties ----

  function Weight(c: Color): nat { if c == Black then 1 else 0 }

  function BlackHeight(t: Tree): nat {
    if t.Leaf? then 0 else BlackHeight(t.left) + Weight(t.color)
  }

  /** No red node has a red child, and both subtrees of every node have the same
      number of black nodes on every path down. */
  predicate RedBlack(t: Tree) {
    t.Node? ==>
      && RedBlack(t.left) && RedBlack(t.right)
      && BlackHeight(t.left) == BlackHeight(t.right)
      && (t.color == Red ==> !IsRed(t.left) && !IsRed(t.right))
  }

  /** Every black count on the path is right when the hole holds a tree of black
      height `n`, and no red node of the path has a red neighbour on the path or
      beside it. */
  predicate PathOk(k: Path, n: nat) {
    match k
    case Top => true
    case InLeft(_, c, t, up) =>
      && RedBlack(t) && BlackHeight(t) == n
      && (c == Red ==> !IsRed(t) && up != Top && PathColor(up) == Black)
      && PathOk(up, n + Weight(c))
    case InRight(_, c, t, up) =>
      && RedBlack(t) && BlackHeight(t) == n
      && (c == Red ==> !IsRed(t) && up != Top && PathColor(up) == Black)
      && PathOk(up, n + Weight(c))
  }

  /** A red-black tree with a black root. */
  predicate Sound(t: Tree) { RedBlack(t) && !IsRed(t) }

  /** The hole of `k` accepts `t`. */
  predicate Fits(k: Path, t: Tree) {
    && RedBlack(t) && PathOk(k, BlackHeight(t))
    && (IsRed(t) ==> k != Top && PathColor(k) == Black)
  }

  lemma {:induction false} PlugSound(k: Path, t: Tree)
    ensures Sound(Plug(k, t)) <==> Fits(k, t)
    decreases k
  {
    match k
    case Top =>
    case InLeft(id, c, r, up) => PlugSound(up, Node(id, c, t, r));
    case InRight(id, c, l, up) => PlugSound(up, Node(id, c, l, t));
  }

  // ---- Balance ----

  function Size(t: Tree): nat { if t.Leaf? then 0 else Size(t.left) + 1 + Size(t.right) }

  function Max(a: nat, b: nat): nat { if a < b then b else a }

  function Height(t: Tree): nat { if t.Leaf? then 0 else 1 + Max(Height(t.left), Height(t.right)) }

  lemma {:induction false} SizeInorder(t: Tree)
    ensures |Inorder(t)| == Size(t)
  {
    if t.Node? {
      SizeInorder(t.left);
      SizeInorder(t.right);
    }
  }

  lemma {:induction false} SizeBound(t: Tree)
    requires RedBlack(t)
    ensures Pow2(BlackHeight(t)) <= Size(t) + 1
  {
    if t.Node? {
      SizeBound(t.left);
      SizeBound(t.right);
    }
  }

  lemma {:induction false} HeightBound(t: Tree)
    requires RedBlack(t)
    ensures Height(t) <= 2 * BlackHeight(t) + (if IsRed(t) then 1 else 0)
  {
    if t.Node? {
      HeightBound(t.left);
      HeightBound(t.right);
    }
  }

  lemma SquareMonotone(a: nat, b: nat)
    requires a <= b
    ensures a * a <= b * b
  {
    assert a * a <= a * b;
  }

  /** Height is at most twice the logarithm of the size: 2^h <= (n + 1)^2. */
  lemma {:induction false} LogarithmicHeight(t: Tree)
    requires Sound(t)
    ensures Pow2(Height(t)) <= (Size(t) + 1) * (Size(t) + 1)
  {
    HeightBound(t);
    SizeBound(t);
    Pow2Monotone(Height(t), 2 * BlackHeight(t));
    Pow2Sum(BlackHeight(t), BlackHeight(t));
    SquareMonotone(Pow2(BlackHeight(t)), Size(t) + 1);
  }
}
