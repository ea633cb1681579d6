/** Taking a node out of a tree in memory (`__rb_erase_augmented` in
    src/common/lib/rbtree/rbtree_augmented.h): splicing out a node with at most one
    child, and putting one node in the place of another. */
module RbUnlink {
  import opened RbTheory
  import opened RbHeap
  import opened RbFocus
  import opened RbErase

  // ---- Splicing out a node with at most one child ----

  /** A node whose only subtree is `x`. */
  predicate Single(t: Tree, x: Tree) {
    t.Node? && ((t.left == Leaf && t.right == x) || (t.left == x && t.right == Leaf))
  }

  function Spliced(h: Memory, top: int, p: int, n: int, x: int, c: Color): (Memory, int)
    requires (p != 0 ==> p in h) && (x != 0 ==> x in h)
  {
    ChangeChild(Hand(h, x, Tag(p, c)), top, p, n, x)
  }

  lemma {:induction false} SpliceShape(h: Memory, top: int, k: Path, t: Tree, x: Tree)
    requires Holds(h, top, 0, k, t) && Single(t, x)
    ensures var p := PathPtr(k, 0); (p != 0 ==> p in h && p in PathIds(k)) && p != t.id
    ensures (Ptr(x) == 0 <==> x.Leaf?) && (x.Node? ==> x.id in h && x.id in Ids(x)) && Ptr(x) != t.id
    ensures t.id in h && t.id != 0 && h[t.id].tag == Tag(PathPtr(k, 0), t.color) && Ids(t) == {t.id} + Ids(x)
    ensures t.id !in PathIds(k) && t.id !in Ids(x) && Ids(x) !! PathIds(k) && Distinct(x) && PathDistinct(k)
    ensures Linked(h, x, t.id) && LinkedPath(h, top, 0, k, t.id) && 0 !in Ids(x)
  {
    if !k.Top? { ParentCell(h, top, k, t); }
    assert Distinct(x) && Linked(h, x, t.id);
    NullIsNoName(x);
  }

  lemma {:induction false} SplicePath(h: Memory, top: int, k: Path, t: Tree, x: Tree, c: Color)
    requires Holds(h, top, 0, k, t) && Single(t, x)
    ensures PathPtr(k, 0) != 0 ==> PathPtr(k, 0) in h
    ensures Ptr(x) != 0 ==> Ptr(x) in h
    ensures var r := Spliced(h, top, PathPtr(k, 0), t.id, Ptr(x), c); LinkedPath(r.0, r.1, 0, k, Ptr(x))
  {
    SpliceShape(h, top, k, t, x);
    var h1 := Hand(h, Ptr(x), Tag(PathPtr(k, 0), c));
    PathFrame(h, h1, top, 0, k, t.id);
    ChangeChildLinks(h1, top, k, t.id, Ptr(x));
  }

  lemma {:induction false} SplicedCells(h: Memory, top: int, p: int, n: int, x: int, c: Color)
    requires (p != 0 ==> p in h) && (x != 0 ==> x in h) && (x == p ==> x == 0)
    ensures var h' := Spliced(h, top, p, n, x, c).0;
            && OnlyWithin(h, h', {p, x} - {0})
            && (x != 0 ==> x in h' && h'[x] == h[x].(tag := Tag(p, c)))
  {
  }

  lemma {:induction false} SpliceLinked(h: Memory, top: int, p: int, n: int, x: Tree, c: Color)
    requires (p != 0 ==> p in h) && p !in Ids(x) && 0 !in Ids(x) && Distinct(x) && Linked(h, x, n)
    requires x.Node? ==> x.id in h && x.id in Ids(x)
    ensures Linked(Spliced(h, top, p, n, Ptr(x), c).0, Paint(x, c), p)
  {
    SplicedCells(h, top, p, n, Ptr(x), c);
    var h', w := Spliced(h, top, p, n, Ptr(x), c).0, {p, Ptr(x)} - {0};
    if x.Node? {
      FrameWithin(h, h', w, x.left, x.id);
      FrameWithin(h, h', w, x.right, x.id);
    }
  }

  lemma {:induction false} SpliceHolds(h: Memory, top: int, k: Path, t: Tree, x: Tree, c: Color)
    requires Holds(h, top, 0, k, t) && Single(t, x)
    ensures PathPtr(k, 0) != 0 ==> PathPtr(k, 0) in h
    ensures Ptr(x) != 0 ==> Ptr(x) in h
    ensures var r := Spliced(h, top, PathPtr(k, 0), t.id, Ptr(x), c);
            && Holds(r.0, r.1, 0, k, Paint(x, c))
            && OnlyWithin(h, r.0, Ids(x) + PathIds(k))
  {
    SpliceShape(h, top, k, t, x);
    SplicePath(h, top, k, t, x, c);
    SpliceLinked(h, top, PathPtr(k, 0), t.id, x, c);
    SplicedCells(h, top, PathPtr(k, 0), t.id, Ptr(x), c);
    PaintSame(x, c);
  }

  /** Its only child is red, so painting it black keeps every count; without one, a
      black count is lost exactly when the node was black. */
  lemma {:induction false} SpliceOk(k: Path, t: Tree, x: Tree)
    requires Fits(k, t) && Single(t, x)
    ensures x.Node? ==> t.color == Black && Fits(k, Paint(x, Black))
    ensures x.Leaf? && t.color == Red ==> Fits(k, Leaf)
    ensures x.Leaf? && t.color == Black && k.Top? ==> Fits(k, Leaf)
    ensures x.Leaf? && t.color == Black && !k.Top? ==> EraseOk(k, Leaf)
  {
    if x.Node? {
      assert BlackHeight(x) == 0 && RedBlack(x);
      assert IsRed(x) && RedBlack(x.left) && RedBlack(x.right) && BlackHeight(x.left) == 0 == BlackHeight(x.right);
    }
  }

  // ---- Putting one node in the place of another ----

  function SetParent(h: Memory, x: int, p: int): Memory
    requires x != 0 ==> x in h
  {
    if x == 0 then h else SetTag(h, x, Tag(p, h[x].tag.color))
  }

  /** `rb_replace_node`. */
  function Replaced(h: Memory, top: int, n: int, s: int): (Memory, int)
    requires n in h && (h[n].left != 0 ==> h[n].left in h) && (h[n].right != 0 ==> h[n].right in h)
    requires h[n].tag.parent != 0 ==> h[n].tag.parent in h
  {
    var h1 := SetParent(SetParent(h[s := h[n]], h[n].left, s), h[n].right, s);
    ChangeChild(h1, top, h[n].tag.parent, n, s)
  }

  lemma {:induction false} ReplacedCells(h: Memory, top: int, n: int, s: int)
    requires n in h && (h[n].left != 0 ==> h[n].left in h) && (h[n].right != 0 ==> h[n].right in h)
    requires h[n].tag.parent != 0 ==> h[n].tag.parent in h
    requires var l, r, p := h[n].left, h[n].right, h[n].tag.parent;
             s != l && s != r && s != p && s != n && (l == r ==> l == 0) && (p == l ==> p == 0) && (p == r ==> p == 0)
    ensures var l, r, p, h' := h[n].left, h[n].right, h[n].tag.parent, Replaced(h, top, n, s).0;
            && s in h' && h'[s] == h[n]
            && (l != 0 ==> l in h' && h'[l] == h[l].(tag := Tag(s, h[l].tag.color)))
            && (r != 0 ==> r in h' && h'[r] == h[r].(tag := Tag(s, h[r].tag.color)))
            && OnlyWithin(h, h', {s, l, r, p} - {0} + {s})
  {
  }

  lemma {:induction false} ReplaceShape(h: Memory, top: int, k: Path, t: Tree)
    requires Holds(h, top, 0, k, t) && t.Node?
    ensures t.id in h && t.id != 0 && h[t.id] == Cell(Tag(PathPtr(k, 0), t.color), Ptr(t.left), Ptr(t.right))
    ensures var p := PathPtr(k, 0); (p != 0 ==> p in h && p in PathIds(k)) && p !in Ids(t)
    ensures t.left.Node? ==> t.left.id in h && t.left.id in Ids(t.left) && h[t.left.id].tag.color == t.left.color
    ensures t.right.Node? ==> t.right.id in h && t.right.id in Ids(t.right) && h[t.right.id].tag.color == t.right.color
    ensures Distinct(t.left) && Distinct(t.right) && Ids(t.left) !! Ids(t.right) && PathDistinct(k)
    ensures Linked(h, t.left, t.id) && Linked(h, t.right, t.id) && LinkedPath(h, top, 0, k, t.id)
    ensures 0 !in Ids(t.left)
    ensures 0 !in Ids(t.right) && Ids(t) == {t.id} + Ids(t.left) + Ids(t.right) && Ids(t) !! PathIds(k)
    ensures t.id !in Ids(t.left) && t.id !in Ids(t.right)
  {
    if !k.Top? { ParentCell(h, top, k, t); }
    assert Linked(h, t.left, t.id) && Linked(h, t.right, t.id);
    NullIsNoName(t);
    NullIsNoName(t.left);
    NullIsNoName(t.right);
  }

  lemma {:induction false} ReplacePath(h: Memory, top: int, k: Path, t: Tree, s: int)
    requires Holds(h, top, 0, k, t) && t.Node? && IsAddress(s) && s !in Ids(t) && s !in PathIds(k)
    ensures t.id in h && h[t.id].tag.parent == PathPtr(k, 0) && (PathPtr(k, 0) != 0 ==> PathPtr(k, 0) in h)
    ensures (h[t.id].left != 0 ==> h[t.id].left in h) && (h[t.id].right != 0 ==> h[t.id].right in h)
    ensures var r := Replaced(h, top, t.id, s); LinkedPath(r.0, r.1, 0, k, s)
  {
    ReplaceShape(h, top, k, t);
    var h1 := SetParent(SetParent(h[s := h[t.id]], Ptr(t.left), s), Ptr(t.right), s);
    PathFrame(h, h1, top, 0, k, t.id);
    ChangeChildLinks(h1, top, k, t.id, s);
  }

  /** A subtree handed to a new parent with its colour kept. */
  lemma {:induction false} Adopted(h: Memory, h': Memory, w: set<int>, x: Tree, n: int, s: int)
    requires OnlyWithin(h, h', w) && Distinct(x) && Linked(h, x, n) && w * Ids(x) <= {Ptr(x)}
    requires x.Node? ==> x.id in h' && h'[x.id] == h[x.id].(tag := Tag(s, x.color))
    ensures Linked(h', x, s)
  {
    if x.Node? {
      FrameWithin(h, h', w, x.left, x.id);
      FrameWithin(h, h', w, x.right, x.id);
    }
  }

  lemma {:induction false} ReplaceHolds(h: Memory, top: int, k: Path, t: Tree, s: int)
    requires Holds(h, top, 0, k, t) && t.Node? && IsAddress(s) && s !in Ids(t) && s !in PathIds(k)
    ensures t.id in h && h[t.id].tag.parent == PathPtr(k, 0) && (PathPtr(k, 0) != 0 ==> PathPtr(k, 0) in h)
    ensures (h[t.id].left != 0 ==> h[t.id].left in h) && (h[t.id].right != 0 ==> h[t.id].right in h)
    ensures var r := Replaced(h, top, t.id, s);
            && Holds(r.0, r.1, 0, k, t.(id := s))
            && OnlyWithin(h, r.0, Ids(t) + PathIds(k) + {s})
  {
    ReplacePath(h, top, k, t, s);
    ReplaceShape(h, top, k, t);
    ReplacedCells(h, top, t.id, s);
    var h', w := Replaced(h, top, t.id, s).0, {s, Ptr(t.left), Ptr(t.right), PathPtr(k, 0)} - {0} + {s};
    Adopted(h, h', w, t.left, t.id, s);
    Adopted(h, h', w, t.right, t.id, s);
    assert Ids(t.(id := s)) == {s} + Ids(t.left) + Ids(t.right);
  }

  // ---- The successor ----

  /** A path that only goes left. */
  predicate LeftSpine(j: Path) { j.Top? || (j.InLeft? && LeftSpine(j.up)) }

  lemma {:induction false} SpineBefore(j: Path)
    requires LeftSpine(j)
    ensures Before(j) == []
  {
    if !j.Top? { SpineBefore(j.up); }
  }

  /** Names play no part in the red-black properties. */
  lemma {:induction false} RenameOk(j: Path, a: int, b: int, c: Color, l: Tree, k: Path, n: nat)
    ensures PathOk(Compose(j, InRight(a, c, l, k)), n) == PathOk(Compose(j, InRight(b, c, l, k)), n)
    ensures PathColor(Compose(j, InRight(a, c, l, k))) == PathColor(Compose(j, InRight(b, c, l, k)))
    ensures !Compose(j, InRight(a, c, l, k)).Top? && !Compose(j, InRight(b, c, l, k)).Top?
    decreases j
  {
    if !j.Top? { RenameOk(j.up, a, b, c, l, k, n + Weight(j.color)); }
  }

  /** The successor `s` of the root of `t`, found at the bottom of the left spine
      `j` of its right subtree. */
  predicate IsSuccessor(t: Tree, j: Path, s: Tree) {
    t.Node? && s.Node? && s.left == Leaf && LeftSpine(j) && t.right == Plug(j, s)
  }

  /** The path from the successor up to the root, below a node named `n`. */
  function Full(n: int, t: Tree, j: Path, k: Path): Path
    requires t.Node?
  {
    Compose(j, InRight(n, t.color, t.left, k))
  }

  /** The tree with the root of `t` gone and its successor in its place. */
  function Promoted(t: Tree, j: Path, s: Tree): Tree
    requires IsSuccessor(t, j, s)
  {
    Node(s.id, t.color, t.left, Plug(j, Paint(s.right, Black)))
  }

  lemma {:induction false} FullPlug(n: int, t: Tree, j: Path, k: Path, x: Tree)
    requires t.Node?
    ensures Plug(Full(n, t, j, k), x) == Plug(k, Node(n, t.color, t.left, Plug(j, x)))
    ensures PathPtr(Full(n, t, j, k), 0) == PathPtr(j, n)
  {
    PlugCompose(j, InRight(n, t.color, t.left, k), x);
  }

  /** Removing the node leaves everything else in order. */
  lemma {:induction false} PromotedInorder(t: Tree, j: Path, s: Tree)
    requires IsSuccessor(t, j, s)
    ensures Inorder(t) == Inorder(t.left) + [t.id] + ([s.id] + Inorder(Plug(j, Paint(s.right, Black))))
    ensures Inorder(Promoted(t, j, s)) == Inorder(t.left) + ([s.id] + Inorder(Plug(j, Paint(s.right, Black))))
  {
    SpineBefore(j);
    InorderPlug(j, s);
    InorderPlug(j, Paint(s.right, Black));
    PaintSame(s.right, Black);
    assert Inorder(s) == [s.id] + Inorder(s.right);
    assert Inorder(t.right) == [s.id] + Inorder(Plug(j, Paint(s.right, Black)));
  }

  /** Memory with the successor spliced out and then put in the node's place. */
  lemma {:induction false} PromoteSpliced(h: Memory, top: int, k: Path, t: Tree, j: Path, s: Tree)
    requires Holds(h, top, 0, k, t) && IsSuccessor(t, j, s)
    ensures PathPtr(j, t.id) in h && PathPtr(j, t.id) != 0 && (Ptr(s.right) != 0 ==> Ptr(s.right) in h)
    ensures var r := Spliced(h, top, PathPtr(j, t.id), s.id, Ptr(s.right), Black);
            && Holds(r.0, r.1, 0, k, t.(right := Plug(j, Paint(s.right, Black))))
            && OnlyWithin(h, r.0, Ids(t) + PathIds(k))
            && s.id !in Ids(t.(right := Plug(j, Paint(s.right, Black)))) && s.id !in PathIds(k) && IsAddress(s.id)
  {
    var f, x := Full(t.id, t, j, k), s.right;
    FullPlug(t.id, t, j, k, s);
    FullPlug(t.id, t, j, k, Paint(x, Black));
    HoldsWhole(h, top, 0, k, t);
    HoldsWhole(h, top, 0, f, s);
    SpliceShape(h, top, f, s, x);
    SpliceHolds(h, top, f, s, x, Black);
    var r := Spliced(h, top, PathPtr(f, 0), s.id, Ptr(x), Black);
    PaintSame(x, Black);
    var t' := t.(right := Plug(j, Paint(x, Black)));
    HoldsWhole(r.0, r.1, 0, f, Paint(x, Black));
    HoldsWhole(r.0, r.1, 0, k, t');
    DistinctPlug(k, t);
    DistinctPlug(f, s);
    DistinctPlug(f, Paint(x, Black));
    DistinctPlug(k, t');
    assert PathPtr(f, 0) in PathIds(f);
  }

  lemma {:induction false} PromoteHolds(h: Memory, top: int, k: Path, t: Tree, j: Path, s: Tree)
    requires Holds(h, top, 0, k, t) && IsSuccessor(t, j, s)
    ensures PathPtr(j, t.id) in h && (Ptr(s.right) != 0 ==> Ptr(s.right) in h)
    ensures var r := Spliced(h, top, PathPtr(j, t.id), s.id, Ptr(s.right), Black);
            && t.id in r.0 && (r.0[t.id].left != 0 ==> r.0[t.id].left in r.0) &&
               (r.0[t.id].right != 0 ==> r.0[t.id].right in r.0)
            && (r.0[t.id].tag.parent != 0 ==> r.0[t.id].tag.parent in r.0)
            && var q := Replaced(r.0, r.1, t.id, s.id);
            && Holds(q.0, q.1, 0, k, Promoted(t, j, s))
            && OnlyWithin(h, q.0, Ids(t) + PathIds(k))
  {
    PromoteSpliced(h, top, k, t, j, s);
    var r := Spliced(h, top, PathPtr(j, t.id), s.id, Ptr(s.right), Black);
    var t' := t.(right := Plug(j, Paint(s.right, Black)));
    ReplaceHolds(r.0, r.1, k, t', s.id);
    DistinctPlug(j, s);
    DistinctPlug(j, Paint(s.right, Black));
    PaintSame(s.right, Black);
  }

  /** Only the nodes of the tree matter to whether memory holds it. */
  lemma {:induction false} HoldsFrame(h: Memory, h': Memory, top: int, k: Path, t: Tree)
    requires Holds(h, top, 0, k, t) && SameOn(h, h', Ids(t) + PathIds(k))
    ensures Holds(h', top, 0, k, t)
  {
    LinkedFrame(h, h', t, PathPtr(k, 0));
    PathFrame(h, h', top, 0, k, Ptr(t));
  }

  /** After the promotion the tree is sound, or lacks one black node where the
      successor was. */
  lemma {:induction false} PromoteOk(k: Path, t: Tree, j: Path, s: Tree)
    requires Fits(k, t) && IsSuccessor(t, j, s)
    ensures var f := Full(s.id, t, j, k);
            && (s.right.Node? ==> s.color == Black && Fits(f, Paint(s.right, Black)))
            && (s.right.Leaf? && s.color == Red ==> Fits(f, Leaf))
            && (s.right.Leaf? && s.color == Black ==> EraseOk(f, Leaf))
  {
    var f, g := Full(t.id, t, j, k), Full(s.id, t, j, k);
    FullPlug(t.id, t, j, k, s);
    PlugSound(k, t);
    PlugSound(f, s);
    SpliceOk(f, s, s.right);
    RenameOk(j, t.id, s.id, t.color, t.left, k, 0);
    RenameOk(j, t.id, s.id, t.color, t.left, k, 1);
    if s.right.Node? {
      RenameOk(j, t.id, s.id, t.color, t.left, k, BlackHeight(Paint(s.right, Black)));
    }
  }

  // ---- The same writes in the order of the original ----

  /** The successor takes the node's left subtree, place and tag. */
  function TakeOver(h: Memory, top: int, n: int, s: int, p: int, x: int): (Memory, int)
    requires n in h && s in h && n != s && (h[n].left != 0 ==> h[n].left in h) && (x != 0 ==> x in h)
    requires h[n].tag.parent != 0 ==> h[n].tag.parent in h
  {
    var h1 := SetParent(SetLeft(h, s, h[n].left), h[n].left, s);
    var r := ChangeChild(h1, top, h[n].tag.parent, n, s);
    (SetTag(Hand(r.0, x, Tag(p, Black)), s, h[n].tag), r.1)
  }

  /** When the successor lies deeper, it first leaves its own place and takes the
      node's right subtree. */
  function LeavePlace(h: Memory, s: int, p: int, x: int, y: int): Memory
    requires p in h && s in h && (y != 0 ==> y in h)
  {
    SetParent(SetRight(SetLeft(h, p, x), s, y), y, s)
  }

  ghost predicate SameBut(h: Memory, h': Memory, n: int) {
    && (forall z :: z != n ==> (z in h <==> z in h'))
    && (forall z :: z != n && z in h ==> h'[z] == h[z])
  }

  /** The node `n`, its two children, its successor `s` with right child `x`, the
      successor's parent `p` and the node's parent are separate nodes. */
  predicate Promotable(h: Memory, n: int, s: int, p: int, x: int) {
    && n in h && s in h && n != 0 && s != 0 && n != s && h[s].right == x && h[s].left == 0
    && var l, y, g := h[n].left, h[n].right, h[n].tag.parent;
    && l in h && l != 0 && l != n && l != s && y in h && y != 0 && y != n && y != l && y != g && l != g
    && (x != 0 ==> x in h) && x != n && x != s && x != l && x != y && (x == g ==> x == 0)
    && (g != 0 ==> g in h) && g != n && g != s
    && (p == n || (p in h && p != 0 && p != s && p != x && p != l && p != g && h[p].left == s && h[p].right != s &&
                   y != s))
    && (p == n ==> y == s)
  }

  /** The link of the node's parent can be rewritten last. */
  lemma {:induction false} TakeOverOrder(h: Memory, top: int, n: int, s: int, p: int, x: int)
    requires n in h && s in h && s != 0 && n != s && (h[n].left != 0 ==> h[n].left in h) && (x != 0 ==> x in h)
    requires var g := h[n].tag.parent; g != 0 ==> g in h && g != s && g != x && g != h[n].left
    ensures var h1 := SetParent(SetLeft(h, s, h[n].left), h[n].left, s);
            TakeOver(h, top, n, s, p, x) == ChangeChild(SetTag(Hand(h1, x, Tag(p, Black)), s, h[n].tag), top,
                                                        h[n].tag.parent, n, s)
  {
    var g, h1 := h[n].tag.parent, SetParent(SetLeft(h, s, h[n].left), h[n].left, s);
    if g != 0 {
      TagAndLink(h1, x, Tag(p, Black), g, s);
      TagAndLink(Hand(h1, x, Tag(p, Black)), s, h[n].tag, g, s);
    }
  }

  lemma {:induction false} TagAndLink(h: Memory, x: int, t: Tag, g: int, y: int)
    requires g in h && g != x && (x != 0 ==> x in h)
    ensures Hand(SetLeft(h, g, y), x, t) == SetLeft(Hand(h, x, t), g, y)
    ensures Hand(SetRight(h, g, y), x, t) == SetRight(Hand(h, x, t), g, y)
  {
  }

  lemma {:induction false} ChangeChildSameBut(h: Memory, h': Memory, top: int, g: int, o: int, w: int, n: int)
    requires SameBut(h, h', n) && g != n && (g != 0 ==> g in h)
    ensures g != 0 ==> g in h'
    ensures SameBut(ChangeChild(h, top, g, o, w).0, ChangeChild(h', top, g, o, w).0, n)
    ensures ChangeChild(h, top, g, o, w).1 == ChangeChild(h', top, g, o, w).1
  {
  }

  lemma {:induction false} NearCells(h: Memory, top: int, n: int, s: int, x: int)
    requires Promotable(h, n, s, n, x)
    ensures var l, v := h[n].left, SetRight(Hand(h, x, Tag(n, Black)), n, x);
            && Spliced(h, top, n, s, x, Black) == (v, top)
            && SameBut(SetParent(SetParent(v[s := v[n]], l, s), x, s),
                       SetTag(Hand(SetParent(SetLeft(h, s, l), l, s), x, Tag(s, Black)), s, h[n].tag), n)
  {
  }

  /** The successor is the right child. */
  lemma {:induction false} NearSame(h: Memory, top: int, n: int, s: int, x: int)
    requires Promotable(h, n, s, n, x)
    ensures var r := Spliced(h, top, n, s, x, Black);
            var a, q := TakeOver(h, top, n, s, s, x), Replaced(r.0, r.1, n, s);
            SameBut(q.0, a.0, n) && a.1 == q.1
  {
    var l, g, v := h[n].left, h[n].tag.parent, SetRight(Hand(h, x, Tag(n, Black)), n, x);
    NearCells(h, top, n, s, x);
    TakeOverOrder(h, top, n, s, s, x);
    ChangeChildSameBut(SetParent(SetParent(v[s := v[n]], l, s), x, s),
                       SetTag(Hand(SetParent(SetLeft(h, s, l), l, s), x, Tag(s, Black)), s, h[n].tag), top, g, n, s, n);
  }

  lemma {:induction false} FarCells(h: Memory, top: int, n: int, s: int, p: int, x: int)
    requires Promotable(h, n, s, p, x) && p != n
    ensures var l, y, v, w := h[n].left, h[n].right, SetLeft(Hand(h, x, Tag(p, Black)), p, x),
                              LeavePlace(h, s, p, x, h[n].right);
            && Spliced(h, top, p, s, x, Black) == (v, top)
            && SameBut(SetParent(SetParent(v[s := v[n]], l, s), y, s),
                       SetTag(Hand(SetParent(SetLeft(w, s, l), l, s), x, Tag(p, Black)), s, h[n].tag), n)
  {
  }

  /** The successor lies below the right child. */
  lemma {:induction false} FarSame(h: Memory, top: int, n: int, s: int, p: int, x: int)
    requires Promotable(h, n, s, p, x) && p != n
    ensures var r, w := Spliced(h, top, p, s, x, Black), LeavePlace(h, s, p, x, h[n].right);
            var a, q := TakeOver(w, top, n, s, p, x), Replaced(r.0, r.1, n, s);
            SameBut(q.0, a.0, n) && a.1 == q.1
  {
    var l, y, g, v := h[n].left, h[n].right, h[n].tag.parent, SetLeft(Hand(h, x, Tag(p, Black)), p, x);
    var w := LeavePlace(h, s, p, x, y);
    FarCells(h, top, n, s, p, x);
    TakeOverOrder(w, top, n, s, p, x);
    ChangeChildSameBut(SetParent(SetParent(v[s := v[n]], l, s), y, s),
                       SetTag(Hand(SetParent(SetLeft(w, s, l), l, s), x, Tag(p, Black)), s, h[n].tag), top, g, n, s, n);
  }

  lemma {:induction false} PlugTop(j: Path, s: Tree)
    requires s.Node?
    ensures Plug(j, s).Node? && (j.Top? ==> Ptr(Plug(j, s)) == s.id) && (!j.Top? ==> Ptr(Plug(j, s)) in PathIds(j))
    decreases j
  {
    match j
    case Top =>
    case InLeft(id, c, r, up) => PlugTop(up, Node(id, c, s, r));
    case InRight(id, c, l, up) => PlugTop(up, Node(id, c, l, s));
  }

  /** The successor's own cell and that of its parent. */
  lemma {:induction false} SuccessorCells(h: Memory, top: int, k: Path, t: Tree, j: Path, s: Tree)
    requires Holds(h, top, 0, k, t) && IsSuccessor(t, j, s)
    ensures s.id in h && s.id != 0 && h[s.id].left == 0 && h[s.id].right == Ptr(s.right) && h[s.id].tag.color == s.color
    ensures s.right.Node? ==> s.right.id in h && s.right.id in Ids(s.right) && s.right.id != 0
    ensures !j.Top? ==> j.id in h && j.id != 0 && j.id in PathIds(j) && h[j.id].left == s.id && h[j.id].right != s.id
    ensures Ids(t.right) == Ids(s) + PathIds(j)
    ensures Ids(s) !! PathIds(j) && Ids(s) == {s.id} + Ids(s.right) && s.id !in Ids(s.right)
    ensures !j.Top? ==> Ptr(t.right) in PathIds(j)
  {
    var f := Full(t.id, t, j, k);
    FullPlug(t.id, t, j, k, s);
    HoldsWhole(h, top, 0, k, t);
    HoldsWhole(h, top, 0, f, s);
    SpliceShape(h, top, f, s, s.right);
    if !j.Top? { ParentCell(h, top, f, s); }
    DistinctPlug(j, s);
    PlugTop(j, s);
  }

  lemma {:induction false} PromotableShape(h: Memory, top: int, k: Path, t: Tree, j: Path, s: Tree)
    requires Holds(h, top, 0, k, t) && IsSuccessor(t, j, s) && t.left.Node?
    ensures Promotable(h, t.id, s.id, PathPtr(j, t.id), Ptr(s.right))
  {
    ReplaceShape(h, top, k, t);
    SuccessorCells(h, top, k, t, j, s);
    PlugTop(j, s);
    assert IsAddress(t.left.id) && t.right.id in Ids(t.right);
  }

  /** The left link of a node reached down the left spine. */
  lemma {:induction false} SpineCell(h: Memory, top: int, k: Path, t: Tree, j: Path, s: Tree)
    requires Holds(h, top, 0, k, t) && t.Node? && t.right == Plug(j, s) && s.Node?
    ensures s.id in h && h[s.id].left == Ptr(s.left) && (Ptr(s.left) == 0 <==> s.left.Leaf?)
  {
    var f := Full(t.id, t, j, k);
    FullPlug(t.id, t, j, k, s);
    HoldsWhole(h, top, 0, k, t);
    HoldsWhole(h, top, 0, f, s);
    assert Distinct(s.left);
  }

  /** The memory that the relinking leaves, whatever became of the node's own cell. */
  lemma {:induction false} PromoteDone(h: Memory, top: int, h': Memory, top': int, k: Path, t: Tree, j: Path, s: Tree)
    requires Holds(h, top, 0, k, t) && IsSuccessor(t, j, s)
    requires PathPtr(j, t.id) in h && (Ptr(s.right) != 0 ==> Ptr(s.right) in h)
    requires var r := Spliced(h, top, PathPtr(j, t.id), s.id, Ptr(s.right), Black);
             && t.id in r.0 && (r.0[t.id].left != 0 ==> r.0[t.id].left in r.0) &&
                (r.0[t.id].right != 0 ==> r.0[t.id].right in r.0)
             && (r.0[t.id].tag.parent != 0 ==> r.0[t.id].tag.parent in r.0)
             && var q := Replaced(r.0, r.1, t.id, s.id);
             SameBut(q.0, h', t.id) && top' == q.1 && t.id in h'
    ensures Holds(h', top', 0, Full(s.id, t, j, k), Paint(s.right, Black))
    ensures OnlyWithin(h, h', Ids(t) + PathIds(k))
    ensures Inorder(Plug(Full(s.id, t, j, k), Paint(s.right, Black))) ==
            Before(k) + Inorder(t.left) + (Inorder(t.right) + After(k))
  {
    PromoteHolds(h, top, k, t, j, s);
    var r := Spliced(h, top, PathPtr(j, t.id), s.id, Ptr(s.right), Black);
    var q, u := Replaced(r.0, r.1, t.id, s.id), Promoted(t, j, s);
    SuccessorCells(h, top, k, t, j, s);
    DistinctPlug(j, Paint(s.right, Black));
    PaintSame(s.right, Black);
    assert Ids(u) == {s.id} + Ids(t.left) + Ids(u.right);
    HoldsFrame(q.0, h', top', k, u);
    FullPlug(s.id, t, j, k, Paint(s.right, Black));
    HoldsWhole(h', top', 0, k, u);
    HoldsWhole(h', top', 0, Full(s.id, t, j, k), Paint(s.right, Black));
    PromotedInorder(t, j, s);
    InorderPlug(k, u);
    PromotedOrder(Before(k), Inorder(t.left), s.id, Inorder(u.right), After(k), Inorder(t.right), t.id);
  }

  lemma {:induction false} PromotedOrder(a: seq<int>, l: seq<int>, s: int, r: seq<int>, b: seq<int>, tr: seq<int>,
                                         n: int)
    requires l + [n] + tr == l + [n] + ([s] + r)
    ensures a + (l + ([s] + r)) + b == a + l + (tr + b)
  {
    assert tr == (l + [n] + tr)[|l| + 1..] == [s] + r;
  }
}
