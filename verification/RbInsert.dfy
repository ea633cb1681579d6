/** The cases of `__rb_insert` (src/common/lib/rbtree/rbtree.c), as steps between
    trees in memory. */
module RbInsert {
  import opened RbTheory
  import opened RbHeap
  import opened RbFocus

  /** What `__rb_insert` keeps about the red node it is working on: everything is
      in order except that its parent may be red too. */
  predicate InsertOk(k: Path, t: Tree) {
    t.Node? && t.color == Red && RedBlack(t) && PathOk(k, BlackHeight(t))
  }

  /** The subtree that replaces the grandparent when the uncle is black. */
  function InsertThree(k: Path, t: Tree): Tree
    requires t.Node? && !k.Top? && !k.up.Top?
  {
    if k.up.InLeft? then
      if k.InLeft? then Node(k.id, Black, t, Node(k.up.id, Red, k.right, k.up.right))
      else Node(t.id, Black, Node(k.id, Red, k.left, t.left), Node(k.up.id, Red, t.right, k.up.right))
    else
    if k.InRight? then Node(k.id, Black, Node(k.up.id, Red, k.up.left, k.left), t)
    else Node(t.id, Black, Node(k.up.id, Red, k.up.left, t.left), Node(k.id, Red, t.right, k.right))
  }

  lemma {:induction false} InsertThreeFits(k: Path, t: Tree)
    requires InsertOk(k, t) && !k.Top? && k.color == Red && !k.up.Top? && !IsRed(Side(k.up))
    ensures Fits(k.up.up, InsertThree(k, t))
  {
    var n := BlackHeight(t);
    assert PathOk(k.up, n) && RedBlack(Side(k)) && BlackHeight(Side(k)) == n;
    assert RedBlack(Side(k.up)) && BlackHeight(Side(k.up)) == n && PathOk(k.up.up, n + 1);
    assert RedBlack(t.left) && RedBlack(t.right) && BlackHeight(t.left) == n && BlackHeight(t.right) == n;
    var r := InsertThree(k, t);
    assert RedBlack(r.left) && RedBlack(r.right) && BlackHeight(r.left) == n && BlackHeight(r.right) == n;
  }

  /** The grandparent after the colour flip of case 1. */
  function InsertFlipped(k: Path, t: Tree): Tree
    requires !k.Top? && !k.up.Top?
  {
    var p, u := Paint(Join(k, t), Black), Paint(Side(k.up), Black);
    if k.up.InLeft? then Node(k.up.id, Red, p, u) else Node(k.up.id, Red, u, p)
  }

  lemma {:induction false} InsertFlippedOk(k: Path, t: Tree)
    requires InsertOk(k, t) && !k.Top? && k.color == Red && !k.up.Top? && IsRed(Side(k.up))
    ensures InsertOk(k.up.up, InsertFlipped(k, t))
  {
    var n, u := BlackHeight(t), Side(k.up);
    assert PathOk(k.up, n) && RedBlack(Side(k)) && BlackHeight(Side(k)) == n;
    assert RedBlack(u) && BlackHeight(u) == n && PathOk(k.up.up, n + 1);
    assert RedBlack(Paint(u, Black)) && BlackHeight(Paint(u, Black)) == n + 1;
    assert RedBlack(Paint(Join(k, t), Black)) && BlackHeight(Paint(Join(k, t), Black)) == n + 1;
  }

  /** Painting both children of a node black. */
  lemma {:induction false} PaintBoth(h: Memory, top: int, k: Path, t: Tree)
    requires Holds(h, top, 0, k, t) && !k.Top? && t.Node? && Side(k).Node?
    ensures var g, p, u := k.id, t.id, Side(k).id;
            && p in h && u in h
            && Refits(h, Inorder(Plug(k, t)), (SetTag(SetTag(h, u, Tag(g, Black)), p, Tag(g, Black)), top),
                      SidePath(SidePath(k, t), Paint(Side(k), Black)), Paint(t, Black))
  {
    var u, s := Side(k), SidePath(k, t);
    SideHolds(h, top, k, t);
    RepaintRefits(h, top, s, u, Black);
    var h1, u1 := SetTag(h, u.id, Tag(k.id, Black)), Paint(u, Black);
    SideHolds(h1, top, s, u1);
    RepaintRefits(h1, top, SidePath(s, u1), t, Black);
    RefitsTrans(h, Inorder(Plug(k, t)), (h1, top), s, u1,
                (SetTag(h1, t.id, Tag(k.id, Black)), top), SidePath(s, u1), Paint(t, Black));
  }

  lemma {:induction false} InsertFlipHolds(h: Memory, top: int, k: Path, t: Tree)
    requires Holds(h, top, 0, k, t) && !k.Top? && !k.up.Top? && Side(k.up).Node?
    ensures var p, g, u := k.id, k.up.id, Side(k.up).id;
            && p in h && u in h
            && var h2 := SetTag(SetTag(h, u, Tag(g, Black)), p, Tag(g, Black));
            && g in h2 && h2[g].tag.parent == PathPtr(k.up.up, 0)
            && Refits(h, Inorder(Plug(k, t)), (SetTag(h2, g, Tag(h2[g].tag.parent, Red)), top), k.up.up,
                      InsertFlipped(k, t))
  {
    var p, u, g := Join(k, t), Side(k.up), k.up.id;
    Zoom(h, top, k, t);
    PaintBoth(h, top, k.up, p);
    var h2 := SetTag(SetTag(h, u.id, Tag(g, Black)), k.id, Tag(g, Black));
    var k1, p1 := SidePath(SidePath(k.up, p), Paint(u, Black)), Paint(p, Black);
    Zoom(h2, top, k1, p1);
    RepaintRefits(h2, top, k.up.up, Join(k1, p1), Red);
    RefitsTrans(h, Inorder(Plug(k, t)), (h2, top), k1, p1,
                (SetTag(h2, g, Tag(PathPtr(k.up.up, 0), Red)), top), k.up.up, InsertFlipped(k, t));
  }

  /** Memory after cases 2 and 3 under a left parent: the node is rotated above its
      parent if it is the inner grandchild, then the grandparent is rotated. */
  function InsertLeftMemory(h: Memory, top: int, node: int, parent: int, gparent: int): (Memory, int)
    requires InsertLeftReady(h, node, parent, gparent)
  {
    if node == h[parent].right then RotateRight(RotateLeft(h, top, parent, Red, Black).0, top, gparent, Red, Black)
    else RotateRight(h, top, gparent, Red, Black)
  }

  /** The addresses that these rotations touch are separate nodes. */
  predicate InsertLeftReady(h: Memory, node: int, parent: int, gparent: int) {
    && node in h && parent in h && gparent in h && node != 0 && parent != 0 && gparent != 0
    && node != parent && node != gparent && parent != gparent
    && h[parent].tag.parent == gparent && h[gparent].left == parent && h[gparent].right != parent
    && (h[parent].left == node || h[parent].right == node)
    && var a, b, s, gg := h[node].left, h[node].right, h[parent].right, h[gparent].tag.parent;
    && (a != 0 ==> a in h && a != node && a != parent && a != gparent)
    && (b != 0 ==> b in h && b != node && b != parent && b != gparent)
    && (s != 0 ==> s in h && s != parent && s != gparent)
    && (gg != 0 ==> gg in h && gg != node && gg != parent && gg != gparent)
  }

  lemma {:induction false} InsertLeftIsReady(h: Memory, top: int, k: Path, t: Tree)
    requires Holds(h, top, 0, k, t) && t.Node? && !k.Top? && k.up.InLeft?
    ensures InsertLeftReady(h, t.id, k.id, k.up.id)
    ensures h[k.id].right == t.id <==> k.InRight?
  {
    Zoom(h, top, k, t);
    Zoom(h, top, k.up, Join(k, t));
    var p := Join(k, t);
    assert Distinct(t) && Linked(h, t, k.id) && Distinct(p) && Linked(h, p, k.up.id);
    assert Ids(p) == {k.id} + Ids(t) + Ids(Side(k)) && Ids(t) == {t.id} + Ids(t.left) + Ids(t.right);
    assert Linked(h, t.left, t.id) && Linked(h, t.right, t.id) && Linked(h, Side(k), k.id);
    assert PathDistinct(k.up);
    assert k.up.up.Top? || (k.up.up.id in PathIds(k.up.up) && k.up.up.id in h);
  }

  lemma {:induction false} InsertOuterLeftHolds(h: Memory, top: int, k: Path, t: Tree)
    requires Holds(h, top, 0, k, t) && InsertOk(k, t) && k.InLeft? && k.color == Red && k.up.InLeft?
    requires InsertLeftReady(h, t.id, k.id, k.up.id) && h[k.id].right != t.id
    ensures Refits(h, Inorder(Plug(k, t)), InsertLeftMemory(h, top, t.id, k.id, k.up.id), k.up.up, InsertThree(k, t))
  {
    Zoom(h, top, k, t);
    Zoom(h, top, k.up, Join(k, t));
    RotateRightRefits(h, top, k.up.up, k.up.id, Black, k.id, Red, k.up.right, k.right, t, Red, Black);
  }

  lemma {:induction false} InsertInnerLeftFirst(h: Memory, top: int, k: Path, t: Tree)
    requires Holds(h, top, 0, k, t) && InsertOk(k, t) && k.InRight? && k.color == Red && k.up.InLeft?
    requires InsertLeftReady(h, t.id, k.id, k.up.id) && h[k.id].right == t.id
    ensures var v := RotateLeft(h, top, k.id, Red, Black);
            && v.1 == top
            && Refits(h, Inorder(Plug(k, t)), v, k.up, Node(t.id, Red, Node(k.id, Red, k.left, t.left), t.right))
  {
    Zoom(h, top, k, t);
    RotateLeftRefits(h, top, k.up, k.id, Red, t.id, Red, k.left, t.left, t.right, Red, Black);
  }

  lemma {:induction false} InsertInnerLeftSecond(h: Memory, top: int, k: Path, n: int, l: Tree, r: Tree)
    requires Holds(h, top, 0, k, Node(n, Red, l, r)) && k.InLeft? && k.color == Black && !IsRed(r)
    ensures k.id in h && h[k.id].left == n && n in h && (h[n].right != 0 ==> h[n].right in h) && h[n].right != k.id
    ensures h[k.id].tag.parent != 0 ==> h[k.id].tag.parent in h
    ensures Refits(h, Inorder(Plug(k, Node(n, Red, l, r))), RotateRight(h, top, k.id, Red, Black), k.up,
                   Node(n, Black, l, Node(k.id, Red, r, k.right)))
  {
    Zoom(h, top, k, Node(n, Red, l, r));
    RotateRightRefits(h, top, k.up, k.id, Black, n, Red, k.right, r, l, Red, Black);
  }

  lemma {:induction false} InsertInnerLeftHolds(h: Memory, top: int, k: Path, t: Tree)
    requires Holds(h, top, 0, k, t) && InsertOk(k, t) && k.InRight? && k.color == Red && k.up.InLeft?
    requires InsertLeftReady(h, t.id, k.id, k.up.id) && h[k.id].right == t.id
    ensures Refits(h, Inorder(Plug(k, t)), InsertLeftMemory(h, top, t.id, k.id, k.up.id), k.up.up, InsertThree(k, t))
  {
    var l := Node(k.id, Red, k.left, t.left);
    var t' := Node(t.id, Red, l, t.right);
    InsertInnerLeftFirst(h, top, k, t);
    var v := RotateLeft(h, top, k.id, Red, Black);
    InsertInnerLeftSecond(v.0, top, k.up, t.id, l, t.right);
    RefitsTrans(h, Inorder(Plug(k, t)), v, k.up, t', InsertLeftMemory(h, top, t.id, k.id, k.up.id), k.up.up,
                InsertThree(k, t));
  }

  /** Memory after cases 2 and 3 under a right parent: the node is rotated above its
      parent if it is the inner grandchild, then the grandparent is rotated. */
  function InsertRightMemory(h: Memory, top: int, node: int, parent: int, gparent: int): (Memory, int)
    requires InsertRightReady(h, node, parent, gparent)
  {
    if node == h[parent].left then RotateLeft(RotateRight(h, top, parent, Red, Black).0, top, gparent, Red, Black)
    else RotateLeft(h, top, gparent, Red, Black)
  }

  /** The addresses that these rotations touch are separate nodes. */
  predicate InsertRightReady(h: Memory, node: int, parent: int, gparent: int) {
    && node in h && parent in h && gparent in h && node != 0 && parent != 0 && gparent != 0
    && node != parent && node != gparent && parent != gparent
    && h[parent].tag.parent == gparent && h[gparent].right == parent && h[gparent].left != parent
    && (h[parent].right == node || h[parent].left == node)
    && var a, b, s, gg := h[node].right, h[node].left, h[parent].left, h[gparent].tag.parent;
    && (a != 0 ==> a in h && a != node && a != parent && a != gparent)
    && (b != 0 ==> b in h && b != node && b != parent && b != gparent)
    && (s != 0 ==> s in h && s != parent && s != gparent)
    && (gg != 0 ==> gg in h && gg != node && gg != parent && gg != gparent)
  }

  lemma {:induction false} InsertRightIsReady(h: Memory, top: int, k: Path, t: Tree)
    requires Holds(h, top, 0, k, t) && t.Node? && !k.Top? && k.up.InRight?
    ensures InsertRightReady(h, t.id, k.id, k.up.id)
    ensures h[k.id].left == t.id <==> k.InLeft?
  {
    Zoom(h, top, k, t);
    Zoom(h, top, k.up, Join(k, t));
    var p := Join(k, t);
    assert Distinct(t) && Linked(h, t, k.id) && Distinct(p) && Linked(h, p, k.up.id);
    assert Ids(p) == {k.id} + Ids(t) + Ids(Side(k)) && Ids(t) == {t.id} + Ids(t.right) + Ids(t.left);
    assert Linked(h, t.right, t.id) && Linked(h, t.left, t.id) && Linked(h, Side(k), k.id);
    assert PathDistinct(k.up);
    assert k.up.up.Top? || (k.up.up.id in PathIds(k.up.up) && k.up.up.id in h);
  }

  lemma {:induction false} InsertOuterRightHolds(h: Memory, top: int, k: Path, t: Tree)
    requires Holds(h, top, 0, k, t) && InsertOk(k, t) && k.InRight? && k.color == Red && k.up.InRight?
    requires InsertRightReady(h, t.id, k.id, k.up.id) && h[k.id].left != t.id
    ensures Refits(h, Inorder(Plug(k, t)), InsertRightMemory(h, top, t.id, k.id, k.up.id), k.up.up, InsertThree(k, t))
  {
    Zoom(h, top, k, t);
    Zoom(h, top, k.up, Join(k, t));
    RotateLeftRefits(h, top, k.up.up, k.up.id, Black, k.id, Red, k.up.left, k.left, t, Red, Black);
  }

  lemma {:induction false} InsertInnerRightFirst(h: Memory, top: int, k: Path, t: Tree)
    requires Holds(h, top, 0, k, t) && InsertOk(k, t) && k.InLeft? && k.color == Red && k.up.InRight?
    requires InsertRightReady(h, t.id, k.id, k.up.id) && h[k.id].left == t.id
    ensures var v := RotateRight(h, top, k.id, Red, Black);
            && v.1 == top
            && Refits(h, Inorder(Plug(k, t)), v, k.up, Node(t.id, Red, t.left, Node(k.id, Red, t.right, k.right)))
  {
    Zoom(h, top, k, t);
    RotateRightRefits(h, top, k.up, k.id, Red, t.id, Red, k.right, t.right, t.left, Red, Black);
  }

  lemma {:induction false} InsertInnerRightSecond(h: Memory, top: int, k: Path, n: int, l: Tree, r: Tree)
    requires Holds(h, top, 0, k, Node(n, Red, r, l)) && k.InRight? && k.color == Black && !IsRed(r)
    ensures k.id in h && h[k.id].right == n && n in h && (h[n].left != 0 ==> h[n].left in h) && h[n].left != k.id
    ensures h[k.id].tag.parent != 0 ==> h[k.id].tag.parent in h
    ensures Refits(h, Inorder(Plug(k, Node(n, Red, r, l))), RotateLeft(h, top, k.id, Red, Black), k.up,
                   Node(n, Black, Node(k.id, Red, k.left, r), l))
  {
    Zoom(h, top, k, Node(n, Red, r, l));
    RotateLeftRefits(h, top, k.up, k.id, Black, n, Red, k.left, r, l, Red, Black);
  }

  lemma {:induction false} InsertInnerRightHolds(h: Memory, top: int, k: Path, t: Tree)
    requires Holds(h, top, 0, k, t) && InsertOk(k, t) && k.InLeft? && k.color == Red && k.up.InRight?
    requires InsertRightReady(h, t.id, k.id, k.up.id) && h[k.id].left == t.id
    ensures Refits(h, Inorder(Plug(k, t)), InsertRightMemory(h, top, t.id, k.id, k.up.id), k.up.up, InsertThree(k, t))
  {
    var l := Node(k.id, Red, t.right, k.right);
    var t' := Node(t.id, Red, t.left, l);
    InsertInnerRightFirst(h, top, k, t);
    var v := RotateRight(h, top, k.id, Red, Black);
    InsertInnerRightSecond(v.0, top, k.up, t.id, l, t.left);
    RefitsTrans(h, Inorder(Plug(k, t)), v, k.up, t', InsertRightMemory(h, top, t.id, k.id, k.up.id), k.up.up,
                InsertThree(k, t));
  }

  // ---- Linking a new node ----

  /** A pointer to a child pointer: the root's, or one of a node's two. */
  datatype Link = AtRoot | LeftOf(id: int) | RightOf(id: int)

  function LinkOf(k: Path): Link {
    if k.Top? then AtRoot else if k.InLeft? then LeftOf(k.id) else RightOf(k.id)
  }

  /** `rb_link_node`. */
  function LinkNode(h: Memory, top: int, link: Link, parent: int, node: int): (Memory, int)
    requires !link.AtRoot? ==> link.id in h
  {
    var h' := h[node := Cell(Tag(parent, Red), 0, 0)];
    match link
    case AtRoot => (h', node)
    case LeftOf(p) => (SetLeft(h', p, node), top)
    case RightOf(p) => (SetRight(h', p, node), top)
  }

  lemma {:induction false} LinkNodeHolds(h: Memory, top: int, k: Path, node: int)
    requires Holds(h, top, 0, k, Leaf) && IsAddress(node) && node !in PathIds(k)
    ensures !k.Top? ==> k.id in h
    ensures var r := LinkNode(h, top, LinkOf(k), PathPtr(k, 0), node);
            && Holds(r.0, r.1, 0, k, Node(node, Red, Leaf, Leaf))
            && OnlyWithin(h, r.0, PathIds(k) + {node})
  {
    if !k.Top? {
      ParentCell(h, top, k, Leaf);
      var h' := LinkNode(h, top, LinkOf(k), PathPtr(k, 0), node).0;
      Zoom(h, top, k, Leaf);
      LinkedFrame(h, h', Side(k), k.id);
      PathFrame(h, h', top, 0, k.up, k.id);
    }
  }

  /** A red leaf in the place of an empty subtree keeps every black count. */
  lemma {:induction false} LinkNodeOk(k: Path, node: int)
    requires Fits(k, Leaf)
    ensures InsertOk(k, Node(node, Red, Leaf, Leaf))
  {
  }

  /** Linking a node at the end of a path puts it between what comes before and
      after the path's hole. */
  lemma {:induction false} LinkNodePlace(h: Memory, top: int, k: Path, node: int)
    requires Holds(h, top, 0, k, Leaf) && IsAddress(node) && node !in Inorder(Plug(k, Leaf)) && Fits(k, Leaf)
    ensures !k.Top? ==> k.id in h
    ensures var r, t := LinkNode(h, top, LinkOf(k), PathPtr(k, 0), node), Node(node, Red, Leaf, Leaf);
            && Holds(r.0, r.1, 0, k, t) && InsertOk(k, t) && Inorder(Plug(k, t)) == Before(k) + [node] + After(k)
            && OnlyWithin(h, r.0, set x | x in Inorder(Plug(k, t)))
    ensures Inorder(Plug(k, Leaf)) == Before(k) + After(k)
  {
    NamesOf(k, Leaf);
    LinkNodeHolds(h, top, k, node);
    LinkNodeOk(k, node);
    LinkOrder(k, node);
  }

  lemma {:induction false} LinkOrder(k: Path, node: int)
    ensures var t := Node(node, Red, Leaf, Leaf);
            && Inorder(Plug(k, t)) == Before(k) + [node] + After(k)
            && (set x | x in Inorder(Plug(k, t))) == PathIds(k) + {node}
    ensures Inorder(Plug(k, Leaf)) == Before(k) + After(k)
  {
    var t := Node(node, Red, Leaf, Leaf);
    NamesOf(k, t);
    assert Inorder(t) == [node] && Ids(t) == {node};
    InorderPlug(k, Leaf);
    InorderPlug(k, t);
    NothingBetween(Before(k), After(k));
  }

  lemma NothingBetween(a: seq<int>, b: seq<int>)
    ensures a + [] + b == a + b
  {
    assert a + [] == a;
  }

  lemma WithinTrans(h0: Memory, h1: Memory, h2: Memory, s: seq<int>)
    requires OnlyWithin(h0, h1, set x | x in s) && OnlyWithin(h1, h2, set x | x in s)
    ensures OnlyWithin(h0, h2, set x | x in s)
  {
  }
}
