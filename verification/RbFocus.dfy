/** Moving the focus of a proof around a tree in memory, and the elementary
    rearrangements (repainting, rotation) seen from there. */
module RbFocus {
  import opened RbTheory
  import opened RbHeap

  // ---- Moving the focus ----

  /** The subtree beside the hole. */
  function Side(k: Path): Tree
    requires !k.Top?
  {
    if k.InLeft? then k.right else k.left
  }

  /** The subtree one level up. */
  function Join(k: Path, t: Tree): Tree
    requires !k.Top?
  {
    if k.InLeft? then Node(k.id, k.color, t, k.right) else Node(k.id, k.color, k.left, t)
  }

  lemma {:induction false} Zoom(h: Memory, top: int, k: Path, t: Tree)
    requires !k.Top?
    ensures Holds(h, top, 0, k, t) <==> Holds(h, top, 0, k.up, Join(k, t))
  {
  }

  /** Repainting the root of a subtree. */
  lemma {:induction false} RepaintHolds(h: Memory, top: int, k: Path, t: Tree, c: Color)
    requires Holds(h, top, 0, k, t) && t.Node?
    ensures t.id in h && h[t.id].tag == Tag(PathPtr(k, 0), t.color)
    ensures Holds(SetTag(h, t.id, Tag(PathPtr(k, 0), c)), top, 0, k, Paint(t, c))
  {
    var h' := SetTag(h, t.id, Tag(PathPtr(k, 0), c));
    PathFrame(h, h', top, 0, k, t.id);
    LinkedFrame(h, h', t.left, t.id);
    LinkedFrame(h, h', t.right, t.id);
  }

  /** Rebalancing from memory `h` of a tree with in-order sequence `s` has reached
      the tree `t` in the hole of `k`, in the same order, and has written nothing
      outside the tree. */
  ghost predicate Refits(h: Memory, s: seq<int>, r: (Memory, int), k: Path, t: Tree) {
    && Holds(r.0, r.1, 0, k, t) && Inorder(Plug(k, t)) == s
    && OnlyWithin(h, r.0, set x | x in s)
  }

  lemma {:induction false} RefitsTrans(h: Memory, s: seq<int>, r: (Memory, int), k: Path, t: Tree,
                                       q: (Memory, int), k': Path, t': Tree)
    requires Refits(h, s, r, k, t) && Refits(r.0, s, q, k', t')
    ensures Refits(h, s, q, k', t')
  {
  }

  lemma {:induction false} NamesOf(k: Path, t: Tree)
    ensures Ids(t) + PathIds(k) == (set x | x in Inorder(Plug(k, t)))
  {
    DistinctPlug(k, t);
    InorderIds(Plug(k, t));
    forall x ensures x in Ids(Plug(k, t)) <==> x in Inorder(Plug(k, t)) { }
  }

  /** A rotation moves a subtree across a node without changing the order. */
  lemma {:induction false} RotateInorder(x: int, cx: Color, y: int, cy: Color, cx': Color, cy': Color, a: Tree, b: Tree,
                                         c: Tree)
    ensures Inorder(Node(x, cx, a, Node(y, cy, b, c))) == Inorder(Node(y, cy', Node(x, cx', a, b), c))
  {
    var i, j, k := Inorder(a), Inorder(b), Inorder(c);
    assert i + [x] + (j + [y] + k) == (i + [x] + j) + [y] + k;
  }

  lemma {:induction false} RotateLeftRefits(h: Memory, top: int, up: Path, x: int, cx: Color, y: int, cy: Color,
                                            a: Tree, b: Tree, d: Tree, c: Color, cb: Color)
    requires Holds(h, top, 0, up, Node(x, cx, a, Node(y, cy, b, d)))
    ensures x in h && h[x].right == y && y in h && (h[y].left != 0 ==> h[y].left in h) && h[y].left != x
    ensures h[x].tag.parent == PathPtr(up, 0) && (PathPtr(up, 0) != 0 ==> PathPtr(up, 0) in h)
    ensures Refits(h, Inorder(Plug(up, Node(x, cx, a, Node(y, cy, b, d)))), RotateLeft(h, top, x, c, cb),
                   up, Node(y, cx, Node(x, c, a, Paint(b, cb)), d))
  {
    RotateLeftHolds(h, top, up, x, cx, y, cy, a, b, d, c, cb);
    var t, t' := Node(x, cx, a, Node(y, cy, b, d)), Node(y, cx, Node(x, c, a, Paint(b, cb)), d);
    RotateInorder(x, cx, y, cy, c, cx, a, Paint(b, cb), d);
    PaintSame(b, cb);
    assert Inorder(Node(y, cy, b, d)) == Inorder(Node(y, cy, Paint(b, cb), d));
    assert Inorder(t) == Inorder(t');
    PlugSameInorder(up, t, t');
    NamesOf(up, t);
  }

  lemma {:induction false} RotateRightRefits(h: Memory, top: int, up: Path, x: int, cx: Color, y: int, cy: Color,
                                             a: Tree, b: Tree, d: Tree, c: Color, cb: Color)
    requires Holds(h, top, 0, up, Node(x, cx, Node(y, cy, d, b), a))
    ensures x in h && h[x].left == y && y in h && (h[y].right != 0 ==> h[y].right in h) && h[y].right != x
    ensures h[x].tag.parent == PathPtr(up, 0) && (PathPtr(up, 0) != 0 ==> PathPtr(up, 0) in h)
    ensures Refits(h, Inorder(Plug(up, Node(x, cx, Node(y, cy, d, b), a))), RotateRight(h, top, x, c, cb),
                   up, Node(y, cx, d, Node(x, c, Paint(b, cb), a)))
  {
    RotateRightHolds(h, top, up, x, cx, y, cy, a, b, d, c, cb);
    var t, t' := Node(x, cx, Node(y, cy, d, b), a), Node(y, cx, d, Node(x, c, Paint(b, cb), a));
    RotateInorder(y, cx, x, c, cy, cx, d, Paint(b, cb), a);
    PaintSame(b, cb);
    assert Inorder(Node(y, cy, d, b)) == Inorder(Node(y, cy, d, Paint(b, cb)));
    assert Inorder(t) == Inorder(t');
    PlugSameInorder(up, t, t');
    NamesOf(up, t);
  }

  lemma {:induction false} RepaintRefits(h: Memory, top: int, k: Path, t: Tree, c: Color)
    requires Holds(h, top, 0, k, t) && t.Node?
    ensures t.id in h && h[t.id].tag == Tag(PathPtr(k, 0), t.color)
    ensures Refits(h, Inorder(Plug(k, t)), (SetTag(h, t.id, Tag(PathPtr(k, 0), c)), top), k, Paint(t, c))
  {
    RepaintHolds(h, top, k, t, c);
    PaintSame(t, c);
    PlugSameInorder(k, t, Paint(t, c));
    NamesOf(k, t);
  }

  /** The same tree seen from the other child of the hole's parent. */
  function SidePath(k: Path, t: Tree): Path
    requires !k.Top?
  {
    if k.InLeft? then InRight(k.id, k.color, t, k.up) else InLeft(k.id, k.color, t, k.up)
  }

  lemma {:induction false} SideHolds(h: Memory, top: int, k: Path, t: Tree)
    requires !k.Top? && Holds(h, top, 0, k, t)
    ensures Holds(h, top, 0, SidePath(k, t), Side(k))
    ensures Plug(SidePath(k, t), Side(k)) == Plug(k, t)
  {
    Zoom(h, top, k, t);
    Zoom(h, top, SidePath(k, t), Side(k));
  }

  /** What the parent of a held subtree says about it and about its sibling. */
  lemma {:induction false} ParentCell(h: Memory, top: int, k: Path, t: Tree)
    requires Holds(h, top, 0, k, t) && !k.Top?
    ensures k.id in h && k.id != 0 && k.id in PathIds(k) && h[k.id].tag == Tag(PathPtr(k.up, 0), k.color)
    ensures h[k.id].left == (if k.InLeft? then Ptr(t) else Ptr(k.left))
    ensures h[k.id].right == (if k.InLeft? then Ptr(k.right) else Ptr(t))
    ensures t.Node? || Side(k).Node? ==> (k.InLeft? <==> h[k.id].right != Ptr(t))
    ensures Ptr(Side(k)) == 0 <==> Side(k).Leaf?
    ensures Side(k).Node? ==> Side(k).id in h && h[Side(k).id].tag == Tag(k.id, Side(k).color)
  {
    assert Linked(h, Side(k), k.id) && Distinct(Side(k)) && (t.Node? ==> t.id in Ids(t));
    assert Side(k).Node? ==> Side(k).id in Ids(Side(k));
  }
}
