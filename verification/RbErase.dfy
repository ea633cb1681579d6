/** The cases of `____rb_erase_color` (src/common/lib/rbtree/rbtree.c), as steps
    between trees in memory. */
module RbErase {
  import opened RbTheory
  import opened RbHeap
  import opened RbFocus

  /** What `____rb_erase_color` keeps: the subtree `t` lacks one black node on every
      path, everything else is in order, and it is not the whole tree. */
  predicate EraseOk(k: Path, t: Tree) {
    RedBlack(t) && !IsRed(t) && !k.Top? && PathOk(k, BlackHeight(t) + 1)
  }

  /** A sibling exists: it has at least one black node to spare. */
  lemma {:induction false} EraseSiblingExists(k: Path, t: Tree)
    requires EraseOk(k, t)
    ensures Side(k).Node? && RedBlack(Side(k)) && BlackHeight(Side(k)) == BlackHeight(t) + 1
  {
  }

  /** The sibling's cell and the colours of its children. */
  lemma {:induction false} SiblingCells(h: Memory, top: int, k: Path, t: Tree)
    requires Holds(h, top, 0, k, t) && !k.Top? && Side(k).Node?
    ensures Side(k).id in h && h[Side(k).id].left == Ptr(Side(k).left) && h[Side(k).id].right == Ptr(Side(k).right)
    ensures var l := Side(k).left;
            (Ptr(l) == 0 <==> l.Leaf?) && (l.Node? ==> l.id in h && h[l.id].tag.color == l.color)
    ensures var r := Side(k).right;
            (Ptr(r) == 0 <==> r.Leaf?) && (r.Node? ==> r.id in h && h[r.id].tag.color == r.color)
  {
    var s := Side(k);
    assert Linked(h, s, k.id) && Distinct(s) && Linked(h, s.left, s.id) && Linked(h, s.right, s.id);
    assert Distinct(s.left) && Distinct(s.right);
  }

  function ColorOr(t: Tree): Color { if t.Node? then t.color else Black }

  /** Case 2: the sibling loses a black node too. */
  function EraseFlipped(k: Path, t: Tree): Tree
    requires !k.Top?
  {
    Join(SidePath(SidePath(k, t), Paint(Side(k), Red)), t)
  }

  lemma {:induction false} EraseFlippedOk(k: Path, t: Tree)
    requires EraseOk(k, t) && Side(k).Node? && Side(k).color == Black && !IsRed(Side(k).left) && !IsRed(Side(k).right)
    ensures k.color == Red ==> Fits(k.up, Paint(EraseFlipped(k, t), Black))
    ensures k.color == Black && !k.up.Top? ==> EraseOk(k.up, EraseFlipped(k, t))
    ensures k.color == Black && k.up.Top? ==> Fits(k.up, EraseFlipped(k, t))
  {
    var n, s := BlackHeight(t), Side(k);
    assert RedBlack(s) && BlackHeight(s) == n + 1;
    assert RedBlack(Paint(s, Red)) && BlackHeight(Paint(s, Red)) == n;
  }

  lemma {:induction false} EraseFlipHolds(h: Memory, top: int, k: Path, t: Tree)
    requires Holds(h, top, 0, k, t) && !k.Top? && Side(k).Node?
    ensures Side(k).id in h && k.id in h
    ensures Refits(h, Inorder(Plug(k, t)), (SetTag(h, Side(k).id, Tag(k.id, Red)), top), k.up, EraseFlipped(k, t))
  {
    var s, p := Side(k), SidePath(k, t);
    ParentCell(h, top, k, t);
    SideHolds(h, top, k, t);
    RepaintRefits(h, top, p, s, Red);
    var h1 := SetTag(h, s.id, Tag(k.id, Red));
    SideHolds(h1, top, p, Paint(s, Red));
    Zoom(h1, top, SidePath(p, Paint(s, Red)), t);
  }

  // ---- The left-hand cases: the subtree lacking a black node is a left child ----

  /** Case 1: the path after rotating a red sibling above the parent. */
  function EraseRotatedLeft(k: Path): Path
    requires k.InLeft? && k.right.Node?
  {
    InLeft(k.id, Red, k.right.left, InLeft(k.right.id, Black, k.right.right, k.up))
  }

  lemma {:induction false} EraseRotatedLeftOk(k: Path, t: Tree)
    requires EraseOk(k, t) && k.InLeft? && IsRed(k.right)
    ensures EraseOk(EraseRotatedLeft(k), t) && Side(EraseRotatedLeft(k)).Node? && !IsRed(Side(EraseRotatedLeft(k)))
    ensures k.color == Black
  {
    var s := k.right;
    assert RedBlack(s.left) && RedBlack(s.right) && BlackHeight(s.left) == BlackHeight(t) + 1 == BlackHeight(s.right);
    assert PathOk(InLeft(s.id, Black, s.right, k.up), BlackHeight(t) + 1);
  }

  lemma {:induction false} EraseRotatedLeftHolds(h: Memory, top: int, k: Path, t: Tree)
    requires Holds(h, top, 0, k, t) && EraseOk(k, t) && k.InLeft? && IsRed(k.right)
    ensures k.id in h && h[k.id].right == k.right.id && k.right.id in h && h[k.right.id].left == Ptr(k.right.left)
    ensures Ptr(k.right.left) != 0 && Ptr(k.right.left) in h && Ptr(k.right.left) != k.id
    ensures h[k.id].tag.parent != 0 ==> h[k.id].tag.parent in h
    ensures Refits(h, Inorder(Plug(k, t)), RotateLeft(h, top, k.id, Red, Black), EraseRotatedLeft(k), t)
  {
    EraseRotatedLeftOk(k, t);
    var s, k' := k.right, EraseRotatedLeft(k);
    Zoom(h, top, k, t);
    RotateLeftRefits(h, top, k.up, k.id, Black, s.id, Red, t, s.left, s.right, Red, Black);
    RotateLeftShape(h, top, k.up, k.id, Black, s.id, Red, t, s.left, s.right);
    var r := RotateLeft(h, top, k.id, Red, Black);
    Zoom(r.0, r.1, k', t);
    Zoom(r.0, r.1, k'.up, Join(k', t));
  }

  /** Case 4: the sibling takes the parent's place and colour. */
  function EraseThreeLeft(k: Path, t: Tree): Tree
    requires k.InLeft? && k.right.Node?
  {
    Node(k.right.id, k.color, Node(k.id, Black, t, k.right.left), Paint(k.right.right, Black))
  }

  lemma {:induction false} EraseThreeLeftFits(k: Path, t: Tree)
    requires EraseOk(k, t) && k.InLeft? && k.right.Node? && k.right.color == Black && IsRed(k.right.right)
    ensures Fits(k.up, EraseThreeLeft(k, t))
  {
    var n, s := BlackHeight(t), k.right;
    assert RedBlack(s.left) && RedBlack(s.right) && BlackHeight(s.left) == n && BlackHeight(s.right) == n;
    assert RedBlack(Paint(s.right, Black)) && BlackHeight(Paint(s.right, Black)) == n + 1;
    assert RedBlack(Node(k.id, Black, t, s.left));
    assert PathOk(k.up, n + 1 + Weight(k.color));
  }

  /** The writes of case 4, one after the other. */
  function EraseLinksLeft(h: Memory, p: int, s: int, r: int, b: int): Memory
    requires p in h && s in h && r in h && (b != 0 ==> b in h)
  {
    var h1 := SetTag(SetLeft(SetRight(h, p, b), s, p), r, Tag(s, Black));
    if b != 0 then SetTag(h1, b, Tag(p, h1[b].tag.color)) else h1
  }

  function EraseLastLeftAt(h: Memory, top: int, p: int, s: int, r: int, b: int): (Memory, int)
    requires p in h && s in h && r in h && (b != 0 ==> b in h) && b != p && r != p
    requires h[p].tag.parent != 0 ==> h[p].tag.parent in h
  {
    TakePlace(EraseLinksLeft(h, p, s, r, b), top, p, s, Black)
  }

  lemma {:induction false} EraseLinksLeftRotate(h: Memory, p: int, s: int, r: int, b: int, cb: Color)
    requires p in h && s in h && r in h && (b != 0 ==> b in h && h[b].tag.color == cb)
    requires p != s && r != p && r != s && b != p && b != s && b != r
    ensures EraseLinksLeft(h, p, s, r, b)
         == Hand(SetLeft(SetRight(SetTag(h, r, Tag(s, Black)), p, b), s, p), b, Tag(p, cb))
  {
    assert SetTag(SetLeft(SetRight(h, p, b), s, p), r, Tag(s, Black))
        == SetLeft(SetRight(SetTag(h, r, Tag(s, Black)), p, b), s, p);
  }

  lemma {:induction false} EraseLastLeftRotates(h: Memory, top: int, p: int, s: int, r: int, b: int, cb: Color)
    requires p in h && s in h && r in h && (b != 0 ==> b in h && h[b].tag.color == cb)
    requires p != s && r != p && r != s && b != p && b != s && b != r
    requires h[p].right == s && h[s].left == b
    requires h[p].tag.parent != 0 ==> h[p].tag.parent in h
    ensures EraseLastLeftAt(h, top, p, s, r, b) == RotateLeft(SetTag(h, r, Tag(s, Black)), top, p, Black, cb)
  {
    EraseLinksLeftRotate(h, p, s, r, b, cb);
  }

  /** Case 4 rewrites the tags of the sibling and of its outer child. */
  lemma {:induction false} StaleLinksLeft(h: Memory, p: int, s: int, r: int, b: int, ts: Tag, tr: Tag)
    requires p in h && s in h && r in h && (b != 0 ==> b in h)
    requires p != s && r != p && r != s && b != p && b != s && b != r
    ensures EraseLinksLeft(SetTag(SetTag(h, s, ts), r, tr), p, s, r, b) == SetTag(EraseLinksLeft(h, p, s, r, b), s, ts)
  {
    var h1, h2, w := SetTag(h, s, ts), SetRight(h, p, b), Tag(s, Black);
    TagRight(h1, r, tr, p, b);
    TagRight(h, s, ts, p, b);
    var h3 := SetLeft(h2, s, p);
    TagLeft(SetTag(h2, s, ts), r, tr, s, p);
    TagLeft(h2, s, ts, s, p);
    TagOver(SetTag(h3, s, ts), r, tr, w);
    TagTag(h3, s, ts, r, w);
    if b != 0 {
      var h4 := SetTag(h3, r, w);
      TagTag(h4, s, ts, b, Tag(p, h4[b].tag.color));
    }
  }

  lemma {:induction false} StaleEraseLeft(h: Memory, top: int, p: int, s: int, r: int, b: int, ts: Tag, tr: Tag)
    requires p in h && s in h && r in h && (b != 0 ==> b in h)
    requires p != s && r != p && r != s && b != p && b != s && b != r
    requires h[p].tag.parent != 0 ==> h[p].tag.parent in h
    ensures EraseLastLeftAt(SetTag(SetTag(h, s, ts), r, tr), top, p, s, r, b) == EraseLastLeftAt(h, top, p, s, r, b)
  {
    StaleLinksLeft(h, p, s, r, b, ts, tr);
    var g := EraseLinksLeft(h, p, s, r, b);
    assert SetTag(SetTag(g, s, ts), s, g[p].tag) == SetTag(g, s, g[p].tag);
  }

  lemma {:induction false} EraseLeftShape(h: Memory, top: int, k: Path, t: Tree)
    requires Holds(h, top, 0, k, t) && k.InLeft? && k.right.Node? && k.right.right.Node?
    ensures var p, s, r, b := k.id, k.right.id, k.right.right.id, Ptr(k.right.left);
            && p in h && s in h && r in h && (b != 0 ==> b in h && h[b].tag.color == ColorOr(k.right.left))
            && p != 0 && s != 0 && r != 0 && p != s && r != p && r != s && b != p && b != s && b != r
            && h[p].right == s && h[s].left == b && h[s].right == r
            && (h[p].tag.parent != 0 ==> h[p].tag.parent in h && h[p].tag.parent != p && h[p].tag.parent != s)
            && h[p].tag.parent == PathPtr(k.up, 0) && h[s].tag == Tag(p, k.right.color)
  {
    ParentCell(h, top, k, t);
    var s := k.right;
    assert Linked(h, s, k.id) && Distinct(s) && Ids(s) == {s.id} + Ids(s.left) + Ids(s.right);
    assert Linked(h, s.left, s.id) && Linked(h, s.right, s.id) && s.right.id in Ids(s.right);
    assert s.left.Node? ==> s.left.id in Ids(s.left);
    assert IsAddress(k.id) && Distinct(s.right) && PathDistinct(k.up);
    Zoom(h, top, k, t);
    if !k.up.Top? { ParentCell(h, top, k.up, Join(k, t)); }
  }

  lemma {:induction false} EraseThreeLeftHolds(h: Memory, top: int, k: Path, t: Tree)
    requires Holds(h, top, 0, k, t) && k.InLeft? && k.right.Node? && k.right.right.Node?
    ensures k.id in h && k.right.id in h && k.right.right.id in h && (Ptr(k.right.left) != 0 ==> Ptr(k.right.left) in h)
    ensures Ptr(k.right.left) != k.id
    ensures k.right.right.id != k.id && (h[k.id].tag.parent != 0 ==> h[k.id].tag.parent in h)
    ensures Refits(h, Inorder(Plug(k, t)),
                   EraseLastLeftAt(h, top, k.id, k.right.id, k.right.right.id, Ptr(k.right.left)),
                   k.up, EraseThreeLeft(k, t))
  {
    var p, s, r := k.id, k.right, k.right.right;
    EraseLeftShape(h, top, k, t);
    EraseLastLeftRotates(h, top, p, s.id, r.id, Ptr(s.left), ColorOr(s.left));
    EraseOuterLeftPainted(h, top, k, t);
    var h1 := SetTag(h, r.id, Tag(s.id, Black));
    RotateLeftRefits(h1, top, k.up, p, k.color, s.id, s.color, t, s.left, Paint(r, Black), Black, ColorOr(s.left));
    RefitsTrans(h, Inorder(Plug(k, t)), (h1, top), k.up,
                Node(p, k.color, t, Node(s.id, s.color, s.left, Paint(r, Black))),
                RotateLeft(h1, top, p, Black, ColorOr(s.left)), k.up, EraseThreeLeft(k, t));
  }

  lemma {:induction false} EraseOuterLeftPainted(h: Memory, top: int, k: Path, t: Tree)
    requires Holds(h, top, 0, k, t) && k.InLeft? && k.right.Node? && k.right.right.Node?
    ensures k.right.right.id in h
    ensures Refits(h, Inorder(Plug(k, t)), (SetTag(h, k.right.right.id, Tag(k.right.id, Black)), top), k.up,
                   Node(k.id, k.color, t, Node(k.right.id, k.right.color, k.right.left, Paint(k.right.right, Black))))
  {
    var s, r := k.right, k.right.right;
    SideHolds(h, top, k, t);
    var k1 := InRight(s.id, s.color, s.left, SidePath(k, t));
    Zoom(h, top, k1, r);
    assert Join(k1, r) == s && Plug(k1, r) == Plug(SidePath(k, t), s);
    RepaintRefits(h, top, k1, r, Black);
    var h1 := SetTag(h, r.id, Tag(s.id, Black));
    Zoom(h1, top, k1, Paint(r, Black));
    Zoom(h1, top, SidePath(k, t), Join(k1, Paint(r, Black)));
    assert Plug(k1, Paint(r, Black)) == Plug(SidePath(k, t), Join(k1, Paint(r, Black)));
  }

  /** What case 4 makes of memory `v`. */
  lemma {:induction false} EraseFinishLeft(h0: Memory, s: seq<int>, v: Memory, top: int, k: Path, t: Tree)
    requires Refits(h0, s, (v, top), k, t) && k.InLeft? && k.right.Node? && k.right.right.Node?
    ensures var p, q, r, b := k.id, k.right.id, k.right.right.id, Ptr(k.right.left);
            && p in v && q in v && r in v && (b != 0 ==> b in v) && v[q].left == b && v[q].right == r
            && p != q && r != p && r != q && b != p && b != q && b != r
            && (v[p].tag.parent != 0 ==> v[p].tag.parent in v)
            && Refits(h0, s, EraseLastLeftAt(v, top, p, q, r, b), k.up, EraseThreeLeft(k, t))
  {
    EraseLeftShape(v, top, k, t);
    EraseThreeLeftHolds(v, top, k, t);
    RefitsTrans(h0, s, (v, top), k, t, EraseLastLeftAt(v, top, k.id, k.right.id, k.right.right.id, Ptr(k.right.left)),
                k.up, EraseThreeLeft(k, t));
  }

  /** Case 3: the path after rotating the sibling's red inner child above it. */
  function EraseInnerLeft(k: Path): Path
    requires k.InLeft? && k.right.Node? && k.right.left.Node?
  {
    var s, l := k.right, k.right.left;
    InLeft(k.id, k.color, Node(l.id, Black, l.left, Node(s.id, Red, l.right, s.right)), k.up)
  }

  lemma {:induction false} EraseInnerLeftOk(k: Path, t: Tree)
    requires EraseOk(k, t)
    requires k.InLeft? && k.right.Node? && k.right.color == Black && IsRed(k.right.left) && !IsRed(k.right.right)
    ensures EraseOk(EraseInnerLeft(k), t) && !IsRed(k.right.left.right)
  {
    var n, s, l := BlackHeight(t), k.right, k.right.left;
    assert RedBlack(l) && RedBlack(s.right) && BlackHeight(l) == n && BlackHeight(s.right) == n;
    assert RedBlack(l.left) && RedBlack(l.right) && BlackHeight(l.left) == n && BlackHeight(l.right) == n;
    var s' := Node(s.id, Red, l.right, s.right);
    assert RedBlack(s') && BlackHeight(s') == n;
    assert RedBlack(Node(l.id, Black, l.left, s')) && BlackHeight(Node(l.id, Black, l.left, s')) == n + 1;
    assert PathOk(EraseInnerLeft(k), n + 1);
  }

  lemma {:induction false} EraseInnerLeftHolds(h: Memory, top: int, k: Path, t: Tree)
    requires Holds(h, top, 0, k, t)
    requires k.InLeft? && k.right.Node? && k.right.color == Black && k.right.left.Node? && !IsRed(k.right.left.right)
    ensures var s, l := k.right.id, k.right.left;
            && k.id in h && k.id != 0 && h[k.id].right == s && h[k.id].left != s && s in h && h[s].left == l.id &&
               h[s].tag == Tag(k.id, Black)
            && l.id in h && h[l.id].right == Ptr(l.right) && h[l.id].left == Ptr(l.left)
            && (Ptr(l.right) != 0 ==> Ptr(l.right) in h) && Ptr(l.right) != s && Ptr(l.right) != l.id &&
               Ptr(l.right) != k.id
            && s != l.id && s != k.id && l.id != k.id
            && RotateRight(h, top, s, Red, Black).1 == top
            && Refits(h, Inorder(Plug(k, t)), RotateRight(h, top, s, Red, Black), EraseInnerLeft(k), t)
  {
    var s, l, p, k' := k.right, k.right.left, SidePath(k, t), EraseInnerLeft(k);
    ParentCell(h, top, k, t);
    SideHolds(h, top, k, t);
    RotateRightRefits(h, top, p, s.id, Black, l.id, l.color, s.right, l.right, l.left, Red, Black);
    RotateRightShape(h, top, p, s.id, Black, l.id, l.color, s.right, l.right, l.left);
    var r := RotateRight(h, top, s.id, Red, Black);
    SideHolds(r.0, r.1, p, k'.right);
    assert k.id in PathIds(p);
  }

  // ---- The mirror images ----

  /** Case 1: the path after rotating a red sibling above the parent. */
  function EraseRotatedRight(k: Path): Path
    requires k.InRight? && k.left.Node?
  {
    InRight(k.id, Red, k.left.right, InRight(k.left.id, Black, k.left.left, k.up))
  }

  lemma {:induction false} EraseRotatedRightOk(k: Path, t: Tree)
    requires EraseOk(k, t) && k.InRight? && IsRed(k.left)
    ensures EraseOk(EraseRotatedRight(k), t) && Side(EraseRotatedRight(k)).Node? && !IsRed(Side(EraseRotatedRight(k)))
    ensures k.color == Black
  {
    var s := k.left;
    assert RedBlack(s.right) && RedBlack(s.left) && BlackHeight(s.right) == BlackHeight(t) + 1 == BlackHeight(s.left);
    assert PathOk(InRight(s.id, Black, s.left, k.up), BlackHeight(t) + 1);
  }

  lemma {:induction false} EraseRotatedRightHolds(h: Memory, top: int, k: Path, t: Tree)
    requires Holds(h, top, 0, k, t) && EraseOk(k, t) && k.InRight? && IsRed(k.left)
    ensures k.id in h && h[k.id].left == k.left.id && k.left.id in h && h[k.left.id].right == Ptr(k.left.right)
    ensures Ptr(k.left.right) != 0 && Ptr(k.left.right) in h && Ptr(k.left.right) != k.id
    ensures h[k.id].tag.parent != 0 ==> h[k.id].tag.parent in h
    ensures Refits(h, Inorder(Plug(k, t)), RotateRight(h, top, k.id, Red, Black), EraseRotatedRight(k), t)
  {
    EraseRotatedRightOk(k, t);
    var s, k' := k.left, EraseRotatedRight(k);
    Zoom(h, top, k, t);
    RotateRightRefits(h, top, k.up, k.id, Black, s.id, Red, t, s.right, s.left, Red, Black);
    RotateRightShape(h, top, k.up, k.id, Black, s.id, Red, t, s.right, s.left);
    var r := RotateRight(h, top, k.id, Red, Black);
    Zoom(r.0, r.1, k', t);
    Zoom(r.0, r.1, k'.up, Join(k', t));
  }

  /** Case 4: the sibling takes the parent's place and colour. */
  function EraseThreeRight(k: Path, t: Tree): Tree
    requires k.InRight? && k.left.Node?
  {
    Node(k.left.id, k.color, Paint(k.left.left, Black), Node(k.id, Black, k.left.right, t))
  }

  lemma {:induction false} EraseThreeRightFits(k: Path, t: Tree)
    requires EraseOk(k, t) && k.InRight? && k.left.Node? && k.left.color == Black && IsRed(k.left.left)
    ensures Fits(k.up, EraseThreeRight(k, t))
  {
    var n, s := BlackHeight(t), k.left;
    assert RedBlack(s.right) && RedBlack(s.left) && BlackHeight(s.right) == n && BlackHeight(s.left) == n;
    assert RedBlack(Paint(s.left, Black)) && BlackHeight(Paint(s.left, Black)) == n + 1;
    assert RedBlack(Node(k.id, Black, s.right, t));
    assert PathOk(k.up, n + 1 + Weight(k.color));
  }

  /** The writes of case 4, one after the other. */
  function EraseLinksRight(h: Memory, p: int, s: int, r: int, b: int): Memory
    requires p in h && s in h && r in h && (b != 0 ==> b in h)
  {
    var h1 := SetTag(SetRight(SetLeft(h, p, b), s, p), r, Tag(s, Black));
    if b != 0 then SetTag(h1, b, Tag(p, h1[b].tag.color)) else h1
  }

  function EraseLastRightAt(h: Memory, top: int, p: int, s: int, r: int, b: int): (Memory, int)
    requires p in h && s in h && r in h && (b != 0 ==> b in h) && b != p && r != p
    requires h[p].tag.parent != 0 ==> h[p].tag.parent in h
  {
    TakePlace(EraseLinksRight(h, p, s, r, b), top, p, s, Black)
  }

  lemma {:induction false} EraseLinksRightRotate(h: Memory, p: int, s: int, r: int, b: int, cb: Color)
    requires p in h && s in h && r in h && (b != 0 ==> b in h && h[b].tag.color == cb)
    requires p != s && r != p && r != s && b != p && b != s && b != r
    ensures EraseLinksRight(h, p, s, r, b)
         == Hand(SetRight(SetLeft(SetTag(h, r, Tag(s, Black)), p, b), s, p), b, Tag(p, cb))
  {
    assert SetTag(SetRight(SetLeft(h, p, b), s, p), r, Tag(s, Black))
        == SetRight(SetLeft(SetTag(h, r, Tag(s, Black)), p, b), s, p);
  }

  lemma {:induction false} EraseLastRightRotates(h: Memory, top: int, p: int, s: int, r: int, b: int, cb: Color)
    requires p in h && s in h && r in h && (b != 0 ==> b in h && h[b].tag.color == cb)
    requires p != s && r != p && r != s && b != p && b != s && b != r
    requires h[p].left == s && h[s].right == b
    requires h[p].tag.parent != 0 ==> h[p].tag.parent in h
    ensures EraseLastRightAt(h, top, p, s, r, b) == RotateRight(SetTag(h, r, Tag(s, Black)), top, p, Black, cb)
  {
    EraseLinksRightRotate(h, p, s, r, b, cb);
  }

  /** Case 4 rewrites the tags of the sibling and of its outer child. */
  lemma {:induction false} StaleLinksRight(h: Memory, p: int, s: int, r: int, b: int, ts: Tag, tr: Tag)
    requires p in h && s in h && r in h && (b != 0 ==> b in h)
    requires p != s && r != p && r != s && b != p && b != s && b != r
    ensures EraseLinksRight(SetTag(SetTag(h, s, ts), r, tr), p, s, r, b) ==
            SetTag(EraseLinksRight(h, p, s, r, b), s, ts)
  {
    var h1, h2, w := SetTag(h, s, ts), SetLeft(h, p, b), Tag(s, Black);
    TagLeft(h1, r, tr, p, b);
    TagLeft(h, s, ts, p, b);
    var h3 := SetRight(h2, s, p);
    TagRight(SetTag(h2, s, ts), r, tr, s, p);
    TagRight(h2, s, ts, s, p);
    TagOver(SetTag(h3, s, ts), r, tr, w);
    TagTag(h3, s, ts, r, w);
    if b != 0 {
      var h4 := SetTag(h3, r, w);
      TagTag(h4, s, ts, b, Tag(p, h4[b].tag.color));
    }
  }

  lemma {:induction false} StaleEraseRight(h: Memory, top: int, p: int, s: int, r: int, b: int, ts: Tag, tr: Tag)
    requires p in h && s in h && r in h && (b != 0 ==> b in h)
    requires p != s && r != p && r != s && b != p && b != s && b != r
    requires h[p].tag.parent != 0 ==> h[p].tag.parent in h
    ensures EraseLastRightAt(SetTag(SetTag(h, s, ts), r, tr), top, p, s, r, b) == EraseLastRightAt(h, top, p, s, r, b)
  {
    StaleLinksRight(h, p, s, r, b, ts, tr);
    var g := EraseLinksRight(h, p, s, r, b);
    assert SetTag(SetTag(g, s, ts), s, g[p].tag) == SetTag(g, s, g[p].tag);
  }

  lemma {:induction false} EraseRightShape(h: Memory, top: int, k: Path, t: Tree)
    requires Holds(h, top, 0, k, t) && k.InRight? && k.left.Node? && k.left.left.Node?
    ensures var p, s, r, b := k.id, k.left.id, k.left.left.id, Ptr(k.left.right);
            && p in h && s in h && r in h && (b != 0 ==> b in h && h[b].tag.color == ColorOr(k.left.right))
            && p != 0 && s != 0 && r != 0 && p != s && r != p && r != s && b != p && b != s && b != r
            && h[p].left == s && h[s].right == b && h[s].left == r
            && (h[p].tag.parent != 0 ==> h[p].tag.parent in h && h[p].tag.parent != p && h[p].tag.parent != s)
            && h[p].tag.parent == PathPtr(k.up, 0) && h[s].tag == Tag(p, k.left.color)
  {
    ParentCell(h, top, k, t);
    var s := k.left;
    assert Linked(h, s, k.id) && Distinct(s) && Ids(s) == {s.id} + Ids(s.right) + Ids(s.left);
    assert Linked(h, s.right, s.id) && Linked(h, s.left, s.id) && s.left.id in Ids(s.left);
    assert s.right.Node? ==> s.right.id in Ids(s.right);
    assert IsAddress(k.id) && Distinct(s.left) && PathDistinct(k.up);
    Zoom(h, top, k, t);
    if !k.up.Top? { ParentCell(h, top, k.up, Join(k, t)); }
  }

  lemma {:induction false} EraseThreeRightHolds(h: Memory, top: int, k: Path, t: Tree)
    requires Holds(h, top, 0, k, t) && k.InRight? && k.left.Node? && k.left.left.Node?
    ensures k.id in h && k.left.id in h && k.left.left.id in h && (Ptr(k.left.right) != 0 ==> Ptr(k.left.right) in h)
    ensures Ptr(k.left.right) != k.id && k.left.left.id != k.id && (h[k.id].tag.parent != 0 ==> h[k.id].tag.parent in h)
    ensures Refits(h, Inorder(Plug(k, t)), EraseLastRightAt(h, top, k.id, k.left.id, k.left.left.id, Ptr(k.left.right)),
                   k.up, EraseThreeRight(k, t))
  {
    var p, s, r := k.id, k.left, k.left.left;
    EraseRightShape(h, top, k, t);
    EraseLastRightRotates(h, top, p, s.id, r.id, Ptr(s.right), ColorOr(s.right));
    EraseOuterRightPainted(h, top, k, t);
    var h1 := SetTag(h, r.id, Tag(s.id, Black));
    RotateRightRefits(h1, top, k.up, p, k.color, s.id, s.color, t, s.right, Paint(r, Black), Black, ColorOr(s.right));
    RefitsTrans(h, Inorder(Plug(k, t)), (h1, top), k.up,
                Node(p, k.color, Node(s.id, s.color, Paint(r, Black), s.right), t),
                RotateRight(h1, top, p, Black, ColorOr(s.right)), k.up, EraseThreeRight(k, t));
  }

  lemma {:induction false} EraseOuterRightPainted(h: Memory, top: int, k: Path, t: Tree)
    requires Holds(h, top, 0, k, t) && k.InRight? && k.left.Node? && k.left.left.Node?
    ensures k.left.left.id in h
    ensures Refits(h, Inorder(Plug(k, t)), (SetTag(h, k.left.left.id, Tag(k.left.id, Black)), top), k.up,
                   Node(k.id, k.color, Node(k.left.id, k.left.color, Paint(k.left.left, Black), k.left.right), t))
  {
    var s, r := k.left, k.left.left;
    SideHolds(h, top, k, t);
    var k1 := InLeft(s.id, s.color, s.right, SidePath(k, t));
    Zoom(h, top, k1, r);
    assert Join(k1, r) == s && Plug(k1, r) == Plug(SidePath(k, t), s);
    RepaintRefits(h, top, k1, r, Black);
    var h1 := SetTag(h, r.id, Tag(s.id, Black));
    Zoom(h1, top, k1, Paint(r, Black));
    Zoom(h1, top, SidePath(k, t), Join(k1, Paint(r, Black)));
    assert Plug(k1, Paint(r, Black)) == Plug(SidePath(k, t), Join(k1, Paint(r, Black)));
  }

  /** What case 4 makes of memory `v`. */
  lemma {:induction false} EraseFinishRight(h0: Memory, s: seq<int>, v: Memory, top: int, k: Path, t: Tree)
    requires Refits(h0, s, (v, top), k, t) && k.InRight? && k.left.Node? && k.left.left.Node?
    ensures var p, q, r, b := k.id, k.left.id, k.left.left.id, Ptr(k.left.right);
            && p in v && q in v && r in v && (b != 0 ==> b in v) && v[q].right == b && v[q].left == r
            && p != q && r != p && r != q && b != p && b != q && b != r
            && (v[p].tag.parent != 0 ==> v[p].tag.parent in v)
            && Refits(h0, s, EraseLastRightAt(v, top, p, q, r, b), k.up, EraseThreeRight(k, t))
  {
    EraseRightShape(v, top, k, t);
    EraseThreeRightHolds(v, top, k, t);
    RefitsTrans(h0, s, (v, top), k, t, EraseLastRightAt(v, top, k.id, k.left.id, k.left.left.id, Ptr(k.left.right)),
                k.up, EraseThreeRight(k, t));
  }

  /** Case 3: the path after rotating the sibling's red inner child above it. */
  function EraseInnerRight(k: Path): Path
    requires k.InRight? && k.left.Node? && k.left.right.Node?
  {
    var s, l := k.left, k.left.right;
    InRight(k.id, k.color, Node(l.id, Black, Node(s.id, Red, s.left, l.left), l.right), k.up)
  }

  lemma {:induction false} EraseInnerRightOk(k: Path, t: Tree)
    requires EraseOk(k, t)
    requires k.InRight? && k.left.Node? && k.left.color == Black && IsRed(k.left.right) && !IsRed(k.left.left)
    ensures EraseOk(EraseInnerRight(k), t) && !IsRed(k.left.right.left)
  {
    var n, s, l := BlackHeight(t), k.left, k.left.right;
    assert RedBlack(l) && RedBlack(s.left) && BlackHeight(l) == n && BlackHeight(s.left) == n;
    assert RedBlack(l.right) && RedBlack(l.left) && BlackHeight(l.right) == n && BlackHeight(l.left) == n;
    var s' := Node(s.id, Red, s.left, l.left);
    assert RedBlack(s') && BlackHeight(s') == n;
    assert RedBlack(Node(l.id, Black, s', l.right)) && BlackHeight(Node(l.id, Black, s', l.right)) == n + 1;
    assert PathOk(EraseInnerRight(k), n + 1);
  }

  lemma {:induction false} EraseInnerRightHolds(h: Memory, top: int, k: Path, t: Tree)
    requires Holds(h, top, 0, k, t)
    requires k.InRight? && k.left.Node? && k.left.color == Black && k.left.right.Node? && !IsRed(k.left.right.left)
    ensures var s, l := k.left.id, k.left.right;
            && k.id in h && k.id != 0 && h[k.id].left == s && h[k.id].right != s && s in h && h[s].right == l.id &&
               h[s].tag == Tag(k.id, Black)
            && l.id in h && h[l.id].left == Ptr(l.left) && h[l.id].right == Ptr(l.right)
            && (Ptr(l.left) != 0 ==> Ptr(l.left) in h) && Ptr(l.left) != s && Ptr(l.left) != l.id && Ptr(l.left) != k.id
            && s != l.id && s != k.id && l.id != k.id
            && RotateLeft(h, top, s, Red, Black).1 == top
            && Refits(h, Inorder(Plug(k, t)), RotateLeft(h, top, s, Red, Black), EraseInnerRight(k), t)
  {
    var s, l, p, k' := k.left, k.left.right, SidePath(k, t), EraseInnerRight(k);
    ParentCell(h, top, k, t);
    SideHolds(h, top, k, t);
    RotateLeftRefits(h, top, p, s.id, Black, l.id, l.color, s.left, l.left, l.right, Red, Black);
    RotateLeftShape(h, top, p, s.id, Black, l.id, l.color, s.left, l.left, l.right);
    var r := RotateLeft(h, top, s.id, Red, Black);
    SideHolds(r.0, r.1, p, k'.left);
    assert k.id in PathIds(p);
  }
}
