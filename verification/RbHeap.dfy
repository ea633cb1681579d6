/** Red-black trees in memory: node cells with the parent address and the colour
    packed into one word, and what it means for memory to hold a given tree. */
module RbHeap {
  import opened RbTheory

  /** The parent/colour word of a node, unpacked. */
  datatype Tag = Tag(parent: int, color: Color)

  /** A node: its parent and colour, and the two child addresses. */
  datatype Cell = Cell(tag: Tag, left: int, right: int)

  type Memory = map<int, Cell>

  /** `__rb_parent_color`: the parent's address with the colour in bit 0. */
  function Pack(t: Tag): int { t.parent + Weight(t.color) }

  function Unpack(pc: int): Tag {
    Tag(pc - pc % 4, if pc % 2 == 0 then Red else Black)
  }

  /** Nodes are word aligned, so the packed word loses nothing; a red node's word
      is its parent's address, and adding one to it paints it black. */
  lemma {:induction false} PackRoundTrip(t: Tag)
    requires t.parent % 4 == 0
    ensures Unpack(Pack(t)) == t
    ensures t.color == Red ==> Pack(t) == t.parent && Unpack(Pack(t) + 1) == Tag(t.parent, Black)
  {
    var q := t.parent / 4;
    assert t.parent == 4 * q;
    LowBits(4 * q, q, 0);
    LowBits(4 * q + 1, q, 1);
  }

  lemma {:induction false} LowBits(x: int, q: int, r: int)
    requires x == 4 * q + r && (r == 0 || r == 1)
    ensures x % 4 == r && x % 2 == r
  {
    assert x == 2 * (2 * q) + r;
  }

  function SetTag(h: Memory, x: int, t: Tag): Memory
    requires x in h
  { h[x := h[x].(tag := t)] }

  function SetLeft(h: Memory, x: int, y: int): Memory
    requires x in h
  { h[x := h[x].(left := y)] }

  function SetRight(h: Memory, x: int, y: int): Memory
    requires x in h
  { h[x := h[x].(right := y)] }

  lemma TagLeft(h: Memory, x: int, t: Tag, y: int, z: int)
    requires x in h && y in h
    ensures SetLeft(SetTag(h, x, t), y, z) == SetTag(SetLeft(h, y, z), x, t)
  {
  }

  lemma TagRight(h: Memory, x: int, t: Tag, y: int, z: int)
    requires x in h && y in h
    ensures SetRight(SetTag(h, x, t), y, z) == SetTag(SetRight(h, y, z), x, t)
  {
  }

  lemma TagTag(h: Memory, x: int, t: Tag, y: int, u: Tag)
    requires x in h && y in h && x != y
    ensures SetTag(SetTag(h, x, t), y, u) == SetTag(SetTag(h, y, u), x, t)
  {
  }

  lemma TagOver(h: Memory, x: int, t: Tag, u: Tag)
    requires x in h
    ensures SetTag(SetTag(h, x, t), x, u) == SetTag(h, x, u)
  {
  }

  /** The memory `h` holds the tree `t`, its root having `p` as parent. */
  ghost predicate Linked(h: Memory, t: Tree, p: int) {
    t.Node? ==>
      && t.id in h && h[t.id] == Cell(Tag(p, t.color), Ptr(t.left), Ptr(t.right))
      && Linked(h, t.left, t.id) && Linked(h, t.right, t.id)
  }

  /** The memory `h` holds the path `k`, whose hole holds the node `child` and
      whose topmost node is `top`, with parent `p`. */
  ghost predicate LinkedPath(h: Memory, top: int, p: int, k: Path, child: int)
    decreases k
  {
    match k
    case Top => top == child
    case InLeft(id, c, r, up) =>
      && id in h && h[id] == Cell(Tag(PathPtr(up, p), c), child, Ptr(r))
      && Linked(h, r, id) && LinkedPath(h, top, p, up, id)
    case InRight(id, c, l, up) =>
      && id in h && h[id] == Cell(Tag(PathPtr(up, p), c), Ptr(l), child)
      && Linked(h, l, id) && LinkedPath(h, top, p, up, id)
  }

  /** `k` around `t` is in memory as a whole tree with root `top`. */
  ghost predicate Holds(h: Memory, top: int, p: int, k: Path, t: Tree) {
    && Apart(k, t)
    && LinkedPath(h, top, p, k, Ptr(t)) && Linked(h, t, PathPtr(k, p))
  }

  ghost predicate SameOn(h: Memory, h': Memory, s: set<int>) {
    forall x :: x in s && x in h ==> x in h' && h'[x] == h[x]
  }

  /** Nothing outside `s` differs between the two memories. */
  ghost predicate OnlyWithin(h: Memory, h': Memory, s: set<int>) {
    && (forall x :: x in h ==> x in h')
    && (forall x :: x !in s && x in h' ==> x in h && h'[x] == h[x])
  }

  lemma {:induction false} LinkedFrame(h: Memory, h': Memory, t: Tree, p: int)
    requires Linked(h, t, p)
    requires SameOn(h, h', Ids(t))
    ensures Linked(h', t, p)
    decreases t
  {
    if t.Node? {
      LinkedFrame(h, h', t.left, t.id);
      LinkedFrame(h, h', t.right, t.id);
    }
  }

  lemma {:induction false} PathFrame(h: Memory, h': Memory, top: int, p: int, k: Path, child: int)
    requires LinkedPath(h, top, p, k, child)
    requires SameOn(h, h', PathIds(k))
    ensures LinkedPath(h', top, p, k, child)
    decreases k
  {
    match k
    case Top =>
    case InLeft(id, c, t, up) =>
      LinkedFrame(h, h', t, id);
      PathFrame(h, h', top, p, up, id);
    case InRight(id, c, t, up) =>
      LinkedFrame(h, h', t, id);
      PathFrame(h, h', top, p, up, id);
  }

  lemma {:induction false} FrameWithin(h: Memory, h': Memory, s: set<int>, t: Tree, p: int)
    requires OnlyWithin(h, h', s) && Linked(h, t, p) && s !! Ids(t)
    ensures Linked(h', t, p)
  {
    LinkedFrame(h, h', t, p);
  }

  /** The split and the whole view of a tree in memory agree. */
  lemma {:induction false} HoldsWhole(h: Memory, top: int, p: int, k: Path, t: Tree)
    ensures Holds(h, top, p, k, t) <==> Holds(h, top, p, Top, Plug(k, t))
    decreases k
  {
    DistinctPlug(k, t);
    match k
    case Top =>
    case InLeft(id, c, r, up) => HoldsWhole(h, top, p, up, Node(id, c, t, r));
    case InRight(id, c, l, up) => HoldsWhole(h, top, p, up, Node(id, c, l, t));
  }

  /** `__rb_change_child`: the parent of `old`, or the root, now refers to `new`.
      As in the original the right link is rewritten whenever the left one is
      not `old`; that `old` cannot be both is what makes the test sufficient. */
  function ChangeChild(h: Memory, top: int, parent: int, old': int, new': int): (r: (Memory, int))
    requires parent != 0 ==> parent in h
  {
    if parent == 0 then (h, new')
    else if h[parent].left == old' then (SetLeft(h, parent, new'), top)
    else (SetRight(h, parent, new'), top)
  }

  /** The parent of the hole with its child replaced; nothing else moves. */
  lemma {:induction false} ChangeChildLinks(h: Memory, top: int, k: Path, old': int, new': int)
    requires PathDistinct(k) && LinkedPath(h, top, 0, k, old')
    requires old' != 0 && old' !in PathIds(k)
    ensures PathPtr(k, 0) != 0 ==> PathPtr(k, 0) in h && PathPtr(k, 0) in PathIds(k)
    ensures var r := ChangeChild(h, top, PathPtr(k, 0), old', new');
            LinkedPath(r.0, r.1, 0, k, new')
  {
    match k
    case Top =>
    case InLeft(id, c, t, up) =>
      var h' := SetLeft(h, id, new');
      LinkedFrame(h, h', t, id);
      PathFrame(h, h', top, 0, up, id);
    case InRight(id, c, t, up) =>
      var h' := SetRight(h, id, new');
      assert t.Node? ==> t.id in Ids(t);
      LinkedFrame(h, h', t, id);
      PathFrame(h, h', top, 0, up, id);
  }

  // ---- Rotations ----

  /** Give the subtree at `b`, if there is one, a new parent and colour. */
  function Hand(h: Memory, b: int, t: Tag): Memory
    requires b != 0 ==> b in h
  {
    if b == 0 then h else SetTag(h, b, t)
  }

  /** `__rb_rotate_set_parents`: `new'` takes the place and the tag of `old'`, which
      becomes its child painted `c`. */
  function TakePlace(h: Memory, top: int, old': int, new': int, c: Color): (Memory, int)
    requires old' in h && new' in h && (h[old'].tag.parent != 0 ==> h[old'].tag.parent in h)
  {
    ChangeChild(SetTag(SetTag(h, new', h[old'].tag), old', Tag(new', c)), top, h[old'].tag.parent, old', new')
  }

  /** Left rotation at `x`, whose right child is `y`: `y` inherits the place and
      the tag of `x`, `x` becomes its left child painted `c`, and the subtree
      between them, painted `cb`, changes sides. */
  function RotateLeft(h: Memory, top: int, x: int, c: Color, cb: Color): (Memory, int)
    requires x in h && h[x].right in h && (h[h[x].right].left != 0 ==> h[h[x].right].left in h)
    requires h[x].tag.parent != 0 ==> h[x].tag.parent in h
    requires h[h[x].right].left != x
  {
    RotateLeftAt(h, top, x, h[x].right, h[h[x].right].left, c, cb)
  }

  /** The same, one write after the other. */
  function RotateLeftAt(h: Memory, top: int, x: int, y: int, b: int, c: Color, cb: Color): (Memory, int)
    requires x in h && y in h && (b != 0 ==> b in h) && b != x
    requires h[x].tag.parent != 0 ==> h[x].tag.parent in h
  {
    var h1 := SetRight(h, x, b);
    var h2 := SetLeft(h1, y, x);
    var h3 := Hand(h2, b, Tag(x, cb));
    TakePlace(h3, top, x, y, c)
  }

  lemma {:induction false} RotateApart(up: Path, x: int, cx: Color, y: int, cy: Color, a: Tree, b: Tree, d: Tree,
                                       c: Color, cb: Color)
    requires Apart(up, Node(x, cx, a, Node(y, cy, b, d)))
    ensures Apart(up, Node(y, cx, Node(x, c, a, Paint(b, cb)), d))
  {
    var t, t' := Node(y, cy, b, d), Node(x, c, a, Paint(b, cb));
    assert Distinct(t) && Ids(t) == {y} + Ids(b) + Ids(d);
    PaintSame(b, cb);
    assert Ids(t') == {x} + Ids(a) + Ids(b) && Distinct(t');
    assert Ids(Node(x, cx, a, t)) == {x} + Ids(a) + Ids(t);
    assert Ids(Node(y, cx, t', d)) == {y} + Ids(t') + Ids(d);
  }

  lemma {:induction false} RotateLeftCells(h: Memory, top: int, x: int, c: Color, cb: Color)
    requires x in h && h[x].right in h && (h[h[x].right].left != 0 ==> h[h[x].right].left in h)
    requires h[x].tag.parent != 0 ==> h[x].tag.parent in h
    requires var y, b, p := h[x].right, h[h[x].right].left, h[x].tag.parent;
             && x != 0 && y != 0 && x != y && x != b && x != p && y != b && y != p && (b == p ==> b == 0)
    ensures var y, b, p, h' := h[x].right, h[h[x].right].left, h[x].tag.parent, RotateLeft(h, top, x, c, cb).0;
            && x in h' && h'[x] == Cell(Tag(y, c), h[x].left, b)
            && y in h' && h'[y] == Cell(h[x].tag, x, h[y].right)
            && (b != 0 ==> b in h' && h'[b] == h[b].(tag := Tag(x, cb)))
            && OnlyWithin(h, h', {x, y, b, p} - {0})
  {
  }

  /** A node `x`, its child `y`, the subtree `b` between them and the outer
      subtrees `a` of `x` and `d` of `y`, none overlapping, below a parent `p`. */
  ghost predicate Rotatable(h: Memory, p: int, x: int, y: int, a: Tree, b: Tree, d: Tree) {
    && x in h && x != 0 && y in h && y != 0 && x != y && p != x && p != y && (p != 0 ==> p in h)
    && h[x].tag.parent == p
    && x !in Ids(a) && x !in Ids(b) && x !in Ids(d)
    && y !in Ids(a) && y !in Ids(b) && y !in Ids(d)
    && p !in Ids(a) && p !in Ids(b) && p !in Ids(d)
    && Ids(a) !! Ids(b) && Ids(a) !! Ids(d) && Ids(b) !! Ids(d)
    && Linked(h, a, x) && Linked(h, b, y) && Linked(h, d, y)
    && 0 !in Ids(a) && 0 !in Ids(b) && 0 !in Ids(d)
    && (b.Node? ==> b.id in Ids(b) && b.id in h && b.id !in Ids(b.left) && b.id !in Ids(b.right))
  }

  lemma {:induction false} RotateLeftShape(h: Memory, top: int, up: Path, x: int, cx: Color, y: int, cy: Color,
                                           a: Tree, b: Tree, d: Tree)
    requires Holds(h, top, 0, up, Node(x, cx, a, Node(y, cy, b, d)))
    ensures Rotatable(h, PathPtr(up, 0), x, y, a, b, d)
    ensures h[x] == Cell(Tag(PathPtr(up, 0), cx), Ptr(a), y) && h[y] == Cell(Tag(x, cy), Ptr(b), Ptr(d))
    ensures {x, y} !! PathIds(up) && Ids(b) !! PathIds(up)
    ensures {x, y, Ptr(b), PathPtr(up, 0)} - {0} <= Ids(Node(x, cx, a, Node(y, cy, b, d))) + PathIds(up)
  {
    var t := Node(y, cy, b, d);
    assert Distinct(t) && Linked(h, t, x) && Ids(t) == {y} + Ids(b) + Ids(d);
    NullIsNoName(a);
    NullIsNoName(b);
    NullIsNoName(d);
  }

  lemma {:induction false} RotateLeftPath(h: Memory, top: int, up: Path, x: int, cx: Color, y: int, cy: Color,
                                          a: Tree, b: Tree, d: Tree, c: Color, cb: Color)
    requires Holds(h, top, 0, up, Node(x, cx, a, Node(y, cy, b, d)))
    ensures x in h && h[x].right == y && y in h && (h[y].left != 0 ==> h[y].left in h) && h[y].left != x
    ensures h[x].tag.parent == PathPtr(up, 0) && (PathPtr(up, 0) != 0 ==> PathPtr(up, 0) in h)
    ensures var r := RotateLeft(h, top, x, c, cb); PathDistinct(up) && LinkedPath(r.0, r.1, 0, up, y)
  {
    RotateLeftShape(h, top, up, x, cx, y, cy, a, b, d);
    var h1 := Hand(SetLeft(SetRight(h, x, Ptr(b)), y, x), Ptr(b), Tag(x, cb));
    var h2 := SetTag(SetTag(h1, y, h1[x].tag), x, Tag(y, c));
    PathFrame(h, h2, top, 0, up, x);
    ChangeChildLinks(h2, top, up, x, y);
  }

  /** The three subtrees once the cells of a rotation have been rewritten. */
  lemma {:induction false} RotateSubtrees(h: Memory, h': Memory, p: int, x: int, y: int, a: Tree, b: Tree, d: Tree,
                                          cb: Color)
    requires Rotatable(h, p, x, y, a, b, d)
    requires OnlyWithin(h, h', {x, y, Ptr(b), p} - {0})
    requires b.Node? ==> b.id in h' && h'[b.id] == h[b.id].(tag := Tag(x, cb))
    ensures Linked(h', a, x) && Linked(h', d, y) && Linked(h', Paint(b, cb), x)
  {
    var w := {x, y, Ptr(b), p} - {0};
    FrameWithin(h, h', w, a, x);
    FrameWithin(h, h', w, d, y);
    if b.Node? {
      FrameWithin(h, h', w, b.left, b.id);
      FrameWithin(h, h', w, b.right, b.id);
    }
  }

  lemma {:induction false} RotateLeftLinked(h: Memory, top: int, p: int, x: int, cx: Color, y: int,
                                            a: Tree, b: Tree, d: Tree, c: Color, cb: Color)
    requires Rotatable(h, p, x, y, a, b, d)
    requires h[x] == Cell(Tag(p, cx), Ptr(a), y) && h[y].left == Ptr(b) && h[y].right == Ptr(d)
    ensures Linked(RotateLeft(h, top, x, c, cb).0, Node(y, cx, Node(x, c, a, Paint(b, cb)), d), p)
    ensures OnlyWithin(h, RotateLeft(h, top, x, c, cb).0, {x, y, Ptr(b), p} - {0})
  {
    RotateLeftCells(h, top, x, c, cb);
    RotateSubtrees(h, RotateLeft(h, top, x, c, cb).0, p, x, y, a, b, d, cb);
  }

  lemma {:induction false} RotateLeftHolds(h: Memory, top: int, up: Path, x: int, cx: Color, y: int, cy: Color,
                                           a: Tree, b: Tree, d: Tree, c: Color, cb: Color)
    requires Holds(h, top, 0, up, Node(x, cx, a, Node(y, cy, b, d)))
    ensures x in h && h[x].right == y && y in h && (h[y].left != 0 ==> h[y].left in h) && h[y].left != x
    ensures h[x].tag.parent == PathPtr(up, 0) && (PathPtr(up, 0) != 0 ==> PathPtr(up, 0) in h)
    ensures var r := RotateLeft(h, top, x, c, cb);
            && Holds(r.0, r.1, 0, up, Node(y, cx, Node(x, c, a, Paint(b, cb)), d))
            && OnlyWithin(h, r.0, Ids(Node(x, cx, a, Node(y, cy, b, d))) + PathIds(up))
  {
    RotateLeftPath(h, top, up, x, cx, y, cy, a, b, d, c, cb);
    RotateLeftShape(h, top, up, x, cx, y, cy, a, b, d);
    RotateLeftLinked(h, top, PathPtr(up, 0), x, cx, y, a, b, d, c, cb);
    RotateApart(up, x, cx, y, cy, a, b, d, c, cb);
  }

  /** Right rotation at `x`, whose left child is `y`: the mirror image. */
  function RotateRight(h: Memory, top: int, x: int, c: Color, cb: Color): (Memory, int)
    requires x in h && h[x].left in h && (h[h[x].left].right != 0 ==> h[h[x].left].right in h)
    requires h[x].tag.parent != 0 ==> h[x].tag.parent in h
    requires h[h[x].left].right != x
  {
    RotateRightAt(h, top, x, h[x].left, h[h[x].left].right, c, cb)
  }

  /** The same, one write after the other. */
  function RotateRightAt(h: Memory, top: int, x: int, y: int, b: int, c: Color, cb: Color): (Memory, int)
    requires x in h && y in h && (b != 0 ==> b in h) && b != x
    requires h[x].tag.parent != 0 ==> h[x].tag.parent in h
  {
    var h1 := SetLeft(h, x, b);
    var h2 := SetRight(h1, y, x);
    var h3 := Hand(h2, b, Tag(x, cb));
    TakePlace(h3, top, x, y, c)
  }

  lemma {:induction false} RotateApartRight(up: Path, x: int, cx: Color, y: int, cy: Color, a: Tree, b: Tree, d: Tree,
                                            c: Color, cb: Color)
    requires Apart(up, Node(x, cx, Node(y, cy, d, b), a))
    ensures Apart(up, Node(y, cx, d, Node(x, c, Paint(b, cb), a)))
  {
    var t, t' := Node(y, cy, d, b), Node(x, c, Paint(b, cb), a);
    assert Distinct(t) && Ids(t) == {y} + Ids(b) + Ids(d);
    PaintSame(b, cb);
    assert Ids(t') == {x} + Ids(a) + Ids(b) && Distinct(t');
    assert Ids(Node(x, cx, t, a)) == {x} + Ids(a) + Ids(t);
    assert Ids(Node(y, cx, d, t')) == {y} + Ids(t') + Ids(d);
  }

  lemma {:induction false} RotateRightCells(h: Memory, top: int, x: int, c: Color, cb: Color)
    requires x in h && h[x].left in h && (h[h[x].left].right != 0 ==> h[h[x].left].right in h)
    requires h[x].tag.parent != 0 ==> h[x].tag.parent in h
    requires var y, b, p := h[x].left, h[h[x].left].right, h[x].tag.parent;
             && x != 0 && y != 0 && x != y && x != b && x != p && y != b && y != p && (b == p ==> b == 0)
    ensures var y, b, p, h' := h[x].left, h[h[x].left].right, h[x].tag.parent, RotateRight(h, top, x, c, cb).0;
            && x in h' && h'[x] == Cell(Tag(y, c), b, h[x].right)
            && y in h' && h'[y] == Cell(h[x].tag, h[y].left, x)
            && (b != 0 ==> b in h' && h'[b] == h[b].(tag := Tag(x, cb)))
            && OnlyWithin(h, h', {x, y, b, p} - {0})
  {
  }

  lemma {:induction false} RotateRightShape(h: Memory, top: int, up: Path, x: int, cx: Color, y: int, cy: Color,
                                            a: Tree, b: Tree, d: Tree)
    requires Holds(h, top, 0, up, Node(x, cx, Node(y, cy, d, b), a))
    ensures Rotatable(h, PathPtr(up, 0), x, y, a, b, d)
    ensures h[x] == Cell(Tag(PathPtr(up, 0), cx), y, Ptr(a)) && h[y] == Cell(Tag(x, cy), Ptr(d), Ptr(b))
    ensures {x, y} !! PathIds(up) && Ids(b) !! PathIds(up)
    ensures {x, y, Ptr(b), PathPtr(up, 0)} - {0} <= Ids(Node(x, cx, Node(y, cy, d, b), a)) + PathIds(up)
  {
    var t := Node(y, cy, d, b);
    assert Distinct(t) && Linked(h, t, x) && Ids(t) == {y} + Ids(b) + Ids(d);
    NullIsNoName(a);
    NullIsNoName(b);
    NullIsNoName(d);
  }

  lemma {:induction false} RotateRightPath(h: Memory, top: int, up: Path, x: int, cx: Color, y: int, cy: Color,
                                           a: Tree, b: Tree, d: Tree, c: Color, cb: Color)
    requires Holds(h, top, 0, up, Node(x, cx, Node(y, cy, d, b), a))
    ensures x in h && h[x].left == y && y in h && (h[y].right != 0 ==> h[y].right in h) && h[y].right != x
    ensures h[x].tag.parent == PathPtr(up, 0) && (PathPtr(up, 0) != 0 ==> PathPtr(up, 0) in h)
    ensures var r := RotateRight(h, top, x, c, cb); PathDistinct(up) && LinkedPath(r.0, r.1, 0, up, y)
  {
    RotateRightShape(h, top, up, x, cx, y, cy, a, b, d);
    var h1 := Hand(SetRight(SetLeft(h, x, Ptr(b)), y, x), Ptr(b), Tag(x, cb));
    var h2 := SetTag(SetTag(h1, y, h1[x].tag), x, Tag(y, c));
    PathFrame(h, h2, top, 0, up, x);
    ChangeChildLinks(h2, top, up, x, y);
  }

  lemma {:induction false} RotateRightLinked(h: Memory, top: int, p: int, x: int, cx: Color, y: int,
                                             a: Tree, b: Tree, d: Tree, c: Color, cb: Color)
    requires Rotatable(h, p, x, y, a, b, d)
    requires h[x] == Cell(Tag(p, cx), y, Ptr(a)) && h[y].right == Ptr(b) && h[y].left == Ptr(d)
    ensures Linked(RotateRight(h, top, x, c, cb).0, Node(y, cx, d, Node(x, c, Paint(b, cb), a)), p)
    ensures OnlyWithin(h, RotateRight(h, top, x, c, cb).0, {x, y, Ptr(b), p} - {0})
  {
    RotateRightCells(h, top, x, c, cb);
    RotateSubtrees(h, RotateRight(h, top, x, c, cb).0, p, x, y, a, b, d, cb);
  }

  lemma {:induction false} RotateRightHolds(h: Memory, top: int, up: Path, x: int, cx: Color, y: int, cy: Color,
                                            a: Tree, b: Tree, d: Tree, c: Color, cb: Color)
    requires Holds(h, top, 0, up, Node(x, cx, Node(y, cy, d, b), a))
    ensures x in h && h[x].left == y && y in h && (h[y].right != 0 ==> h[y].right in h) && h[y].right != x
    ensures h[x].tag.parent == PathPtr(up, 0) && (PathPtr(up, 0) != 0 ==> PathPtr(up, 0) in h)
    ensures var r := RotateRight(h, top, x, c, cb);
            && Holds(r.0, r.1, 0, up, Node(y, cx, d, Node(x, c, Paint(b, cb), a)))
            && OnlyWithin(h, r.0, Ids(Node(x, cx, Node(y, cy, d, b), a)) + PathIds(up))
  {
    RotateRightPath(h, top, up, x, cx, y, cy, a, b, d, c, cb);
    RotateRightShape(h, top, up, x, cx, y, cy, a, b, d);
    RotateRightLinked(h, top, PathPtr(up, 0), x, cx, y, a, b, d, c, cb);
    RotateApartRight(up, x, cx, y, cy, a, b, d, c, cb);
  }

  // ---- Two rotations with the links between them left for the second ----

  /** A right rotation at `x` rewrites the tag of `y` and the left link of `x`
      whatever they were. */
  lemma {:induction false} StaleRight(h: Memory, top: int, x: int, y: int, b: int, c: Color, cb: Color, t: Tag, l: int)
    requires x in h && y in h && x != y && (b != 0 ==> b in h && b != x && b != y) && x != 0
    requires h[x].tag.parent != 0 ==> h[x].tag.parent in h && h[x].tag.parent != x
    ensures RotateRightAt(SetLeft(SetTag(h, y, t), x, l), top, x, y, b, c, cb) == RotateRightAt(h, top, x, y, b, c, cb)
  {
    var v := SetLeft(SetTag(h, y, t), x, l);
    var g, w := Hand(SetRight(SetLeft(h, x, b), y, x), b, Tag(x, cb)),
                Hand(SetRight(SetLeft(v, x, b), y, x), b, Tag(x, cb));
    assert w == SetTag(g, y, t);
    assert SetTag(g, y, g[x].tag) == SetTag(w, y, w[x].tag);
  }

  lemma {:induction false} StaleLeft(h: Memory, top: int, x: int, y: int, b: int, c: Color, cb: Color, t: Tag, r: int)
    requires x in h && y in h && x != y && (b != 0 ==> b in h && b != x && b != y) && x != 0
    requires h[x].tag.parent != 0 ==> h[x].tag.parent in h && h[x].tag.parent != x
    ensures RotateLeftAt(SetRight(SetTag(h, y, t), x, r), top, x, y, b, c, cb) == RotateLeftAt(h, top, x, y, b, c, cb)
  {
    var v := SetRight(SetTag(h, y, t), x, r);
    var g, w := Hand(SetLeft(SetRight(h, x, b), y, x), b, Tag(x, cb)),
                Hand(SetLeft(SetRight(v, x, b), y, x), b, Tag(x, cb));
    assert w == SetTag(g, y, t);
    assert SetTag(g, y, g[x].tag) == SetTag(w, y, w[x].tag);
  }
}
