/** The red-black tree of src/common/lib/rbtree: node cells in memory, a root
    pointer and a cached leftmost pointer, rewritten link by link. The ghost field
    `tree` is the tree that memory holds. */
module RbTree {
  import opened Arith
  import opened Lists
  import opened RbTheory
  import opened RbHeap
  import opened RbFocus
  import opened RbInsert
  import opened RbErase
  import opened RbUnlink
  import opened RbOrder

  /** What taking out the root of `t` amounts to: the order loses exactly that node,
      and either the tree is sound or the node to rebalance from is the parent of
      an empty subtree that lacks one black node. */
  ghost predicate Unlinked(k: Path, t: Tree, rebalance: int, k': Path, t': Tree)
    requires t.Node?
  {
    && Inorder(Plug(k', t')) == Before(k) + Inorder(t.left) + (Inorder(t.right) + After(k))
    && (rebalance == 0 ==> Fits(k', t'))
    && (rebalance != 0 ==> EraseOk(k', t') && t' == Leaf && rebalance == k'.id)
  }

  lemma {:induction false} UnlinkedSingle(k: Path, t: Tree, x: Tree)
    requires Single(t, x)
    ensures Inorder(Plug(k, Paint(x, Black))) == Before(k) + Inorder(t.left) + (Inorder(t.right) + After(k))
  {
    PaintSame(x, Black);
    InorderPlug(k, Paint(x, Black));
    assert Before(k) + Inorder(x) + After(k) == Before(k) + Inorder(t.left) + (Inorder(t.right) + After(k));
  }

  function FirstOf(s: seq<int>): int { if s == [] then 0 else s[0] }

  lemma {:induction false} NullRoot(h: Memory, top: int, t: Tree)
    requires Holds(h, top, 0, Top, t)
    ensures top == Ptr(t) && (top == 0 <==> t.Leaf?) && (t.Leaf? <==> Inorder(t) == [])
  {
  }

  /** Everything `rb_erase` needs to know about the node it is given. */
  lemma {:induction false} Spot(h: Memory, top: int, tree: Tree, node: int) returns (s: seq<int>, k: Path, t: Tree)
    requires Holds(h, top, 0, Top, tree) && Sound(tree) && node in Inorder(tree)
    ensures Holds(h, top, 0, k, t) && Fits(k, t) && t.Node? && t.id == node && Plug(k, t) == tree
    ensures s == Remove(Inorder(tree), node) == Before(k) + Inorder(t.left) + (Inorder(t.right) + After(k))
    ensures Ids(t) + PathIds(k) == (set x | x in Inorder(tree))
    ensures forall y :: y in s ==> y in Inorder(tree)
  {
    InorderIds(tree);
    k, t := Locate(Top, tree, node);
    HoldsWhole(h, top, 0, k, t);
    PlugSound(k, t);
    PlaceOf(k, t);
    NamesOf(k, t);
    s := Remove(Inorder(tree), node);
    RemoveSubset(Inorder(tree), node);
  }

  class RbTree {
    var heap: Memory
    var root: int
    ghost var tree: Tree

    ghost predicate Held()
      reads this
    {
      Holds(heap, root, 0, Top, tree)
    }

    ghost predicate Valid()
      reads this
    {
      Held() && Sound(tree)
    }

    /** The nodes of the tree, in order. */
    ghost function Contents(): seq<int>
      reads this
    {
      Inorder(tree)
    }

    /** A tree of n nodes is at most 2 log2(n + 1) high: 2^h <= (n + 1)^2. */
    lemma HeightIsLogarithmic()
      requires Valid()
      ensures Pow2(Height(tree)) <= (|Contents()| + 1) * (|Contents()| + 1)
    {
      LogarithmicHeight(tree);
      SizeInorder(tree);
    }

    /** The memory of every node of the tree, and nothing else, may have changed. */
    twostate predicate OnlyNodes(s: seq<int>)
      reads this
    {
      OnlyWithin(old(heap), heap, set x | x in s)
    }

    constructor ()
      ensures Valid() && Contents() == []
    {
      heap, root, tree := map[], 0, Leaf;
    }

    /** `__rb_change_child`. */
    method ReplaceChild(old': int, new': int, parent: int)
      requires parent != 0 ==> parent in heap
      modifies this`heap, this`root
      ensures (heap, root) == ChangeChild(old(heap), old(root), parent, old', new')
    {
      if parent != 0 {
        if heap[parent].left == old' {
          heap := SetLeft(heap, parent, new');
        } else {
          heap := SetRight(heap, parent, new');
        }
      } else {
        root := new';
      }
    }

    /** `__rb_rotate_set_parents`. */
    method RotateSetParents(old': int, new': int, c: Color)
      requires old' in heap && new' in heap && (heap[old'].tag.parent != 0 ==> heap[old'].tag.parent in heap)
      modifies this`heap, this`root
      ensures (heap, root) == TakePlace(old(heap), old(root), old', new', c)
    {
      var parent := heap[old'].tag.parent;
      heap := SetTag(heap, new', heap[old'].tag);
      heap := SetTag(heap, old', Tag(new', c));
      ReplaceChild(old', new', parent);
    }

    /** Case 2 under a left parent: all of a left rotation at the parent except the
        node's own tag and the grandparent's link, which case 3 rewrites anyway. */
    method InsertInnerLeft(node: int, parent: int, ghost gparent: int)
      requires InsertLeftReady(heap, node, parent, gparent) && heap[parent].right == node
      modifies this`heap
      ensures heap.Keys == old(heap).Keys
      ensures RotateLeft(old(heap), root, parent, Red, Black)
           == (SetLeft(SetTag(heap, node, old(heap)[parent].tag), gparent, node), root)
      ensures heap[gparent] == old(heap)[gparent] && heap[node].right == old(heap)[node].right
    {
      var tmp := heap[node].left;
      heap := SetRight(heap, parent, tmp);
      heap := SetLeft(heap, node, parent);
      if tmp != 0 { heap := SetTag(heap, tmp, Tag(parent, Black)); }
      ghost var h3 := heap;
      heap := SetTag(heap, parent, Tag(node, Red));
      assert RotateLeft(old(heap), root, parent, Red, Black) == TakePlace(h3, root, parent, node, Red);
      assert SetTag(SetTag(h3, node, h3[parent].tag), parent, Tag(node, Red)) == SetTag(heap, node, h3[parent].tag);
    }

    /** Cases 2 and 3 of insertion under a left parent: the uncle is black. */
    method InsertRotateLeft(node: int, parent0: int, gparent: int)
      requires InsertLeftReady(heap, node, parent0, gparent)
      modifies this`heap, this`root
      ensures (heap, root) == InsertLeftMemory(old(heap), old(root), node, parent0, gparent)
    {
      var parent := parent0;
      var tmp := heap[parent].right;
      if node == tmp {
        InsertInnerLeft(node, parent, gparent);
        parent := node;
        tmp := heap[node].right;
        StaleRight(heap, root, gparent, node, tmp, Red, Black, old(heap)[parent0].tag, node);
      }
      heap := SetLeft(heap, gparent, tmp);
      heap := SetRight(heap, parent, gparent);
      if tmp != 0 { heap := SetTag(heap, tmp, Tag(gparent, Black)); }
      RotateSetParents(gparent, parent, Red);
    }

    /** Case 2 under a right parent: all of a right rotation at the parent except the
        node's own tag and the grandparent's link, which case 3 rewrites anyway. */
    method InsertInnerRight(node: int, parent: int, ghost gparent: int)
      requires InsertRightReady(heap, node, parent, gparent) && heap[parent].left == node
      modifies this`heap
      ensures heap.Keys == old(heap).Keys
      ensures RotateRight(old(heap), root, parent, Red, Black)
           == (SetRight(SetTag(heap, node, old(heap)[parent].tag), gparent, node), root)
      ensures heap[gparent] == old(heap)[gparent] && heap[node].left == old(heap)[node].left
    {
      var tmp := heap[node].right;
      heap := SetLeft(heap, parent, tmp);
      heap := SetRight(heap, node, parent);
      if tmp != 0 { heap := SetTag(heap, tmp, Tag(parent, Black)); }
      ghost var h3 := heap;
      heap := SetTag(heap, parent, Tag(node, Red));
      assert RotateRight(old(heap), root, parent, Red, Black) == TakePlace(h3, root, parent, node, Red);
      assert SetTag(SetTag(h3, node, h3[parent].tag), parent, Tag(node, Red)) == SetTag(heap, node, h3[parent].tag);
    }

    /** Cases 2 and 3 of insertion under a right parent: the uncle is black. */
    method InsertRotateRight(node: int, parent0: int, gparent: int)
      requires InsertRightReady(heap, node, parent0, gparent)
      modifies this`heap, this`root
      ensures (heap, root) == InsertRightMemory(old(heap), old(root), node, parent0, gparent)
    {
      var parent := parent0;
      var tmp := heap[parent].left;
      if node == tmp {
        InsertInnerRight(node, parent, gparent);
        parent := node;
        tmp := heap[node].left;
        StaleLeft(heap, root, gparent, node, tmp, Red, Black, old(heap)[parent0].tag, node);
      }
      heap := SetRight(heap, gparent, tmp);
      heap := SetLeft(heap, parent, gparent);
      if tmp != 0 { heap := SetTag(heap, tmp, Tag(gparent, Black)); }
      RotateSetParents(gparent, parent, Red);
    }

    /** Case 1: recolour parent, uncle and grandparent. */
    method InsertFlip(parent: int, uncle: int, gparent: int, ghost h0: Memory, ghost s: seq<int>, ghost k: Path,
                      ghost t: Tree)
      requires Refits(h0, s, (heap, root), k, t) && InsertOk(k, t)
      requires !k.Top? && k.color == Red && !k.up.Top? && IsRed(Side(k.up))
      requires parent == k.id && gparent == k.up.id && uncle == Side(k.up).id
      modifies this`heap
      ensures Refits(h0, s, (heap, root), k.up.up, InsertFlipped(k, t)) && InsertOk(k.up.up, InsertFlipped(k, t))
      ensures gparent in heap && heap[gparent].tag.parent == PathPtr(k.up.up, 0)
    {
      InsertFlipHolds(heap, root, k, t);
      InsertFlippedOk(k, t);
      heap := SetTag(heap, uncle, Tag(gparent, Black));
      heap := SetTag(heap, parent, Tag(gparent, Black));
      heap := SetTag(heap, gparent, Tag(heap[gparent].tag.parent, Red));
      RefitsTrans(h0, s, (old(heap), root), k, t, (heap, root), k.up.up, InsertFlipped(k, t));
    }

    /** Cases 2 and 3, on whichever side the parent is. */
    method InsertRotate(node: int, parent: int, gparent: int, ghost h0: Memory, ghost s: seq<int>, ghost k: Path,
                        ghost t: Tree)
      requires Refits(h0, s, (heap, root), k, t) && InsertOk(k, t)
      requires !k.Top? && k.color == Red && !k.up.Top? && !IsRed(Side(k.up))
      requires node == t.id && parent == k.id && gparent == k.up.id
      modifies this`heap, this`root
      ensures Refits(h0, s, (heap, root), k.up.up, InsertThree(k, t)) && Fits(k.up.up, InsertThree(k, t))
    {
      InsertThreeFits(k, t);
      Zoom(heap, root, k, t);
      ParentCell(heap, root, k.up, Join(k, t));
      if parent != heap[gparent].right {
        InsertLeftIsReady(heap, root, k, t);
        if k.InLeft? { InsertOuterLeftHolds(heap, root, k, t); } else { InsertInnerLeftHolds(heap, root, k, t); }
        InsertRotateLeft(node, parent, gparent);
      } else {
        InsertRightIsReady(heap, root, k, t);
        if k.InRight? { InsertOuterRightHolds(heap, root, k, t); } else { InsertInnerRightHolds(heap, root, k, t); }
        InsertRotateRight(node, parent, gparent);
      }
      RefitsTrans(h0, s, (old(heap), old(root)), k, t, (heap, root), k.up.up, InsertThree(k, t));
    }

    /** `__rb_insert`: from a red node whose parent may be red, up to a sound tree. */
    method InsertColor(node0: int, ghost k0: Path, ghost t0: Tree)
      requires Holds(heap, root, 0, k0, t0) && InsertOk(k0, t0) && t0.id == node0
      modifies this`heap, this`root, this`tree
      ensures Valid() && Inorder(tree) == Inorder(Plug(k0, t0))
      ensures OnlyWithin(old(heap), heap, set x | x in Inorder(tree))
    {
      ghost var s, k, t := Inorder(Plug(k0, t0)), k0, t0;
      var node, parent := node0, heap[node0].tag.parent;
      while true
        invariant Refits(old(heap), s, (heap, root), k, t) && InsertOk(k, t)
        invariant node == t.id && parent == PathPtr(k, 0)
        decreases k
      {
        if !k.Top? { ParentCell(heap, root, k, t); }
        if parent == 0 {
          RepaintRefits(heap, root, k, t, Black);
          ghost var h1 := heap;
          heap := SetTag(heap, node, Tag(0, Black));
          RefitsTrans(old(heap), s, (h1, root), k, t, (heap, root), k, Paint(t, Black));
          t := Paint(t, Black);
          break;
        }
        if heap[parent].tag.color == Black {
          break;
        }
        var gparent := heap[parent].tag.parent;
        Zoom(heap, root, k, t);
        ParentCell(heap, root, k.up, Join(k, t));
        var uncle := heap[gparent].right;
        if parent == uncle {
          uncle := heap[gparent].left;
        }
        if uncle != 0 && heap[uncle].tag.color == Red {
          InsertFlip(parent, uncle, gparent, old(heap), s, k, t);
          node, parent := gparent, heap[gparent].tag.parent;
          k, t := k.up.up, InsertFlipped(k, t);
        } else {
          InsertRotate(node, parent, gparent, old(heap), s, k, t);
          k, t := k.up.up, InsertThree(k, t);
          break;
        }
      }
      HoldsWhole(heap, root, 0, k, t);
      PlugSound(k, t);
      tree := Plug(k, t);
    }

    /** Case 1 of erasure under a left child: a red sibling is rotated away, so that
        the sibling returned is black. */
    method EraseSiblingLeft(parent: int, ghost h0: Memory, ghost s: seq<int>, ghost k: Path, ghost t: Tree)
      returns (sibling: int, ghost k': Path)
      requires Refits(h0, s, (heap, root), k, t) && EraseOk(k, t) && k.InLeft? && parent == k.id
      modifies this`heap, this`root
      ensures Refits(h0, s, (heap, root), k', t) && EraseOk(k', t) && k'.InLeft? && k'.id == parent
      ensures k'.right.Node? && k'.right.color == Black && sibling == k'.right.id
      ensures k' == k || (k'.color == Red && !k'.up.Top?)
    {
      ParentCell(heap, root, k, t);
      sibling, k' := heap[parent].right, k;
      if heap[sibling].tag.color == Red {
        EraseRotatedLeftOk(k, t);
        EraseRotatedLeftHolds(heap, root, k, t);
        var tmp1 := heap[sibling].left;
        heap := SetRight(heap, parent, tmp1);
        heap := SetLeft(heap, sibling, parent);
        heap := SetTag(heap, tmp1, Tag(parent, Black));
        RotateSetParents(parent, sibling, Red);
        sibling, k' := tmp1, EraseRotatedLeft(k);
        RefitsTrans(h0, s, (old(heap), old(root)), k, t, (heap, root), k', t);
      }
    }

    /** Case 3 under a left child: a right rotation at the sibling except for the two
        tags that case 4 rewrites. */
    method EraseInnerLinksLeft(parent: int, sibling: int, inner: int)
      requires parent in heap && sibling in heap && inner in heap
      requires parent != 0 && sibling != 0 && parent != sibling && inner != parent && inner != sibling
      requires heap[parent].right == sibling && heap[parent].left != sibling
      requires heap[sibling].left == inner && heap[sibling].tag == Tag(parent, Black)
      requires var b := heap[inner].right; (b != 0 ==> b in heap) && b != sibling && b != inner && b != parent
      modifies this`heap
      ensures parent in heap && sibling in heap && inner in heap
      ensures RotateRight(old(heap), root, sibling, Red, Black)
           == (SetTag(SetTag(heap, inner, Tag(parent, Black)), sibling, Tag(inner, Red)), root)
    {
      var tmp1 := heap[inner].right;
      heap := SetLeft(heap, sibling, tmp1);
      heap := SetRight(heap, inner, sibling);
      ghost var h1 := Hand(heap, tmp1, Tag(sibling, Black));
      heap := SetRight(heap, parent, inner);
      if tmp1 != 0 { heap := SetTag(heap, tmp1, Tag(sibling, Black)); }
      assert heap == SetRight(h1, parent, inner);
      assert SetTag(SetTag(heap, inner, Tag(parent, Black)), sibling, Tag(inner, Red))
          == SetRight(SetTag(SetTag(h1, inner, Tag(parent, Black)), sibling, Tag(inner, Red)), parent, inner);
    }

    /** Case 4 under a left child. */
    method EraseLastLeft(parent: int, sibling: int, outer: int)
      requires parent in heap
      requires sibling in heap && outer in heap && outer != parent && outer != sibling && sibling != parent
      requires var b := heap[sibling].left; (b != 0 ==> b in heap) && b != parent
      requires heap[parent].tag.parent != 0 ==> heap[parent].tag.parent in heap
      modifies this`heap, this`root
      ensures (heap, root) == EraseLastLeftAt(old(heap), old(root), parent, sibling, outer, old(heap)[sibling].left)
    {
      var tmp2 := heap[sibling].left;
      heap := SetRight(heap, parent, tmp2);
      heap := SetLeft(heap, sibling, parent);
      heap := SetTag(heap, outer, Tag(sibling, Black));
      if tmp2 != 0 { heap := SetTag(heap, tmp2, Tag(parent, heap[tmp2].tag.color)); }
      RotateSetParents(parent, sibling, Black);
    }

    /** Case 3 under a left child, as seen by case 4: what case 4 is about to do is
        what it would do after the whole rotation. */
    method EraseInnerStepLeft(parent: int, sibling: int, inner: int, ghost h0: Memory, ghost s: seq<int>, ghost k: Path,
                              ghost t: Tree)
      requires Refits(h0, s, (heap, root), k, t) && EraseOk(k, t) && k.InLeft? && parent == k.id
      requires k.right.Node? && k.right.color == Black && sibling == k.right.id
      requires IsRed(k.right.left) && !IsRed(k.right.right) && inner == k.right.left.id
      modifies this`heap
      ensures parent in heap
      ensures inner in heap && sibling in heap && parent != inner && sibling != parent && sibling != inner
      ensures var b := heap[inner].left; (b != 0 ==> b in heap) && b != parent
      ensures heap[parent].tag.parent != 0 ==> heap[parent].tag.parent in heap
      ensures var k' := EraseInnerLeft(k);
              Refits(h0, s, EraseLastLeftAt(heap, root, parent, inner, sibling, heap[inner].left), k.up,
                     EraseThreeLeft(k', t))
    {
      EraseInnerLeftOk(k, t);
      EraseInnerLeftHolds(heap, root, k, t);
      EraseInnerLinksLeft(parent, sibling, inner);
      ghost var k', v := EraseInnerLeft(k), SetTag(SetTag(heap, inner, Tag(parent, Black)), sibling, Tag(inner, Red));
      RefitsTrans(h0, s, (old(heap), root), k, t, (v, root), k', t);
      EraseFinishLeft(h0, s, v, root, k', t);
      assert heap[inner].left == v[inner].left == Ptr(k'.right.left) && v[parent].tag == heap[parent].tag;
      StaleEraseLeft(heap, root, parent, inner, sibling, heap[inner].left, Tag(parent, Black), Tag(inner, Red));
    }

    /** Case 3 if the outer child is black, and case 4: the rotation that ends it. */
    method EraseRotateLeft(parent: int, sibling0: int, ghost h0: Memory, ghost s: seq<int>, ghost k0: Path,
                           ghost t: Tree)
      returns (ghost k: Path)
      requires Refits(h0, s, (heap, root), k0, t) && EraseOk(k0, t) && k0.InLeft? && parent == k0.id
      requires k0.right.Node? && k0.right.color == Black && sibling0 == k0.right.id
      requires IsRed(k0.right.left) || IsRed(k0.right.right)
      modifies this`heap, this`root
      ensures k.InLeft? && k.right.Node? && k.up == k0.up
      ensures Refits(h0, s, (heap, root), k.up, EraseThreeLeft(k, t)) && Fits(k.up, EraseThreeLeft(k, t))
    {
      k := k0;
      SiblingCells(heap, root, k, t);
      var sibling, tmp1 := sibling0, heap[sibling0].right;
      if tmp1 == 0 || heap[tmp1].tag.color == Black {
        var tmp2 := heap[sibling].left;
        EraseInnerLeftOk(k, t);
        EraseInnerStepLeft(parent, sibling, tmp2, h0, s, k, t);
        k, tmp1, sibling := EraseInnerLeft(k0), sibling, tmp2;
      } else {
        EraseFinishLeft(h0, s, heap, root, k, t);
      }
      EraseThreeLeftFits(k, t);
      EraseLastLeft(parent, sibling, tmp1);
    }

    /** Case 1 of erasure under a right child: a red sibling is rotated away, so that
        the sibling returned is black. */
    method EraseSiblingRight(parent: int, ghost h0: Memory, ghost s: seq<int>, ghost k: Path, ghost t: Tree)
      returns (sibling: int, ghost k': Path)
      requires Refits(h0, s, (heap, root), k, t) && EraseOk(k, t) && k.InRight? && parent == k.id
      modifies this`heap, this`root
      ensures Refits(h0, s, (heap, root), k', t) && EraseOk(k', t) && k'.InRight? && k'.id == parent
      ensures k'.left.Node? && k'.left.color == Black && sibling == k'.left.id
      ensures k' == k || (k'.color == Red && !k'.up.Top?)
    {
      ParentCell(heap, root, k, t);
      sibling, k' := heap[parent].left, k;
      if heap[sibling].tag.color == Red {
        EraseRotatedRightOk(k, t);
        EraseRotatedRightHolds(heap, root, k, t);
        var tmp1 := heap[sibling].right;
        heap := SetLeft(heap, parent, tmp1);
        heap := SetRight(heap, sibling, parent);
        heap := SetTag(heap, tmp1, Tag(parent, Black));
        RotateSetParents(parent, sibling, Red);
        sibling, k' := tmp1, EraseRotatedRight(k);
        RefitsTrans(h0, s, (old(heap), old(root)), k, t, (heap, root), k', t);
      }
    }

    /** Case 3 under a right child: a left rotation at the sibling except for the two
        tags that case 4 rewrites. */
    method EraseInnerLinksRight(parent: int, sibling: int, inner: int)
      requires parent in heap && sibling in heap && inner in heap
      requires parent != 0 && sibling != 0 && parent != sibling && inner != parent && inner != sibling
      requires heap[parent].left == sibling && heap[parent].right != sibling
      requires heap[sibling].right == inner && heap[sibling].tag == Tag(parent, Black)
      requires var b := heap[inner].left; (b != 0 ==> b in heap) && b != sibling && b != inner && b != parent
      modifies this`heap
      ensures parent in heap && sibling in heap && inner in heap
      ensures RotateLeft(old(heap), root, sibling, Red, Black)
           == (SetTag(SetTag(heap, inner, Tag(parent, Black)), sibling, Tag(inner, Red)), root)
    {
      var tmp1 := heap[inner].left;
      heap := SetRight(heap, sibling, tmp1);
      heap := SetLeft(heap, inner, sibling);
      ghost var h1 := Hand(heap, tmp1, Tag(sibling, Black));
      heap := SetLeft(heap, parent, inner);
      if tmp1 != 0 { heap := SetTag(heap, tmp1, Tag(sibling, Black)); }
      assert heap == SetLeft(h1, parent, inner);
      assert SetTag(SetTag(heap, inner, Tag(parent, Black)), sibling, Tag(inner, Red))
          == SetLeft(SetTag(SetTag(h1, inner, Tag(parent, Black)), sibling, Tag(inner, Red)), parent, inner);
    }

    /** Case 4 under a right child. */
    method EraseLastRight(parent: int, sibling: int, outer: int)
      requires parent in heap
      requires sibling in heap && outer in heap && outer != parent && outer != sibling && sibling != parent
      requires var b := heap[sibling].right; (b != 0 ==> b in heap) && b != parent
      requires heap[parent].tag.parent != 0 ==> heap[parent].tag.parent in heap
      modifies this`heap, this`root
      ensures (heap, root) == EraseLastRightAt(old(heap), old(root), parent, sibling, outer, old(heap)[sibling].right)
    {
      var tmp2 := heap[sibling].right;
      heap := SetLeft(heap, parent, tmp2);
      heap := SetRight(heap, sibling, parent);
      heap := SetTag(heap, outer, Tag(sibling, Black));
      if tmp2 != 0 { heap := SetTag(heap, tmp2, Tag(parent, heap[tmp2].tag.color)); }
      RotateSetParents(parent, sibling, Black);
    }

    /** Case 3 under a right child, as seen by case 4: what case 4 is about to do is
        what it would do after the whole rotation. */
    method EraseInnerStepRight(parent: int, sibling: int, inner: int, ghost h0: Memory, ghost s: seq<int>,
                               ghost k: Path, ghost t: Tree)
      requires Refits(h0, s, (heap, root), k, t) && EraseOk(k, t) && k.InRight? && parent == k.id
      requires k.left.Node? && k.left.color == Black && sibling == k.left.id
      requires IsRed(k.left.right) && !IsRed(k.left.left) && inner == k.left.right.id
      modifies this`heap
      ensures parent in heap
      ensures inner in heap && sibling in heap && parent != inner && sibling != parent && sibling != inner
      ensures var b := heap[inner].right; (b != 0 ==> b in heap) && b != parent
      ensures heap[parent].tag.parent != 0 ==> heap[parent].tag.parent in heap
      ensures var k' := EraseInnerRight(k);
              Refits(h0, s, EraseLastRightAt(heap, root, parent, inner, sibling, heap[inner].right), k.up,
                     EraseThreeRight(k', t))
    {
      EraseInnerRightOk(k, t);
      EraseInnerRightHolds(heap, root, k, t);
      EraseInnerLinksRight(parent, sibling, inner);
      ghost var k', v := EraseInnerRight(k), SetTag(SetTag(heap, inner, Tag(parent, Black)), sibling, Tag(inner, Red));
      RefitsTrans(h0, s, (old(heap), root), k, t, (v, root), k', t);
      EraseFinishRight(h0, s, v, root, k', t);
      assert heap[inner].right == v[inner].right == Ptr(k'.left.right) && v[parent].tag == heap[parent].tag;
      StaleEraseRight(heap, root, parent, inner, sibling, heap[inner].right, Tag(parent, Black), Tag(inner, Red));
    }

    /** Case 3 if the outer child is black, and case 4: the rotation that ends it. */
    method EraseRotateRight(parent: int, sibling0: int, ghost h0: Memory, ghost s: seq<int>, ghost k0: Path,
                            ghost t: Tree)
      returns (ghost k: Path)
      requires Refits(h0, s, (heap, root), k0, t) && EraseOk(k0, t) && k0.InRight? && parent == k0.id
      requires k0.left.Node? && k0.left.color == Black && sibling0 == k0.left.id
      requires IsRed(k0.left.right) || IsRed(k0.left.left)
      modifies this`heap, this`root
      ensures k.InRight? && k.left.Node? && k.up == k0.up
      ensures Refits(h0, s, (heap, root), k.up, EraseThreeRight(k, t)) && Fits(k.up, EraseThreeRight(k, t))
    {
      k := k0;
      SiblingCells(heap, root, k, t);
      var sibling, tmp1 := sibling0, heap[sibling0].left;
      if tmp1 == 0 || heap[tmp1].tag.color == Black {
        var tmp2 := heap[sibling].right;
        EraseInnerRightOk(k, t);
        EraseInnerStepRight(parent, sibling, tmp2, h0, s, k, t);
        k, tmp1, sibling := EraseInnerRight(k0), sibling, tmp2;
      } else {
        EraseFinishRight(h0, s, heap, root, k, t);
      }
      EraseThreeRightFits(k, t);
      EraseLastRight(parent, sibling, tmp1);
    }

    /** `____rb_erase_color`: from a missing black node to a sound tree. */
    method EraseColor(parent0: int, ghost k0: Path)
      requires Holds(heap, root, 0, k0, Leaf) && EraseOk(k0, Leaf) && parent0 == k0.id
      modifies this`heap, this`root, this`tree
      ensures Valid() && Inorder(tree) == Inorder(Plug(k0, Leaf))
      ensures OnlyWithin(old(heap), heap, set x | x in Inorder(tree))
    {
      ghost var s, k, t := Inorder(Plug(k0, Leaf)), k0, Leaf;
      var node, parent := 0, parent0;
      while true
        invariant Refits(old(heap), s, (heap, root), k, t) && EraseOk(k, t)
        invariant node == Ptr(t) && parent == k.id
        decreases k
      {
        ghost var up := k.up;
        assert k.InLeft? || k.InRight?;
        var done;
        done, node, parent, k, t := EraseStep(node, parent, old(heap), s, k, t);
        if done { break; }
        assert k == up;
      }
      HoldsWhole(heap, root, 0, k, t);
      PlugSound(k, t);
      tree := Plug(k, t);
    }

    /** One turn of the loop: `done` when the tree is sound again, and otherwise the
        parent is the new subtree lacking a black node. */
    method EraseStep(node: int, parent: int, ghost h0: Memory, ghost s: seq<int>, ghost k: Path, ghost t: Tree)
      returns (done: bool, node': int, parent': int, ghost k': Path, ghost t': Tree)
      requires Refits(h0, s, (heap, root), k, t) && EraseOk(k, t) && node == Ptr(t) && parent == k.id
      modifies this`heap, this`root
      ensures Refits(h0, s, (heap, root), k', t')
      ensures done ==> Fits(k', t')
      ensures !done ==> EraseOk(k', t') && k' == k.up && node' == Ptr(t') && parent' == k'.id
    {
      EraseSiblingExists(k, t);
      ParentCell(heap, root, k, t);
      var sibling;
      ghost var kk;
      if node != heap[parent].right {
        sibling, kk := EraseSiblingLeft(parent, h0, s, k, t);
        SiblingCells(heap, root, kk, t);
        var tmp1, tmp2 := heap[sibling].right, heap[sibling].left;
        if (tmp1 == 0 || heap[tmp1].tag.color == Black) && (tmp2 == 0 || heap[tmp2].tag.color == Black) {
          done, node', parent', k', t' := EraseFlip(parent, sibling, h0, s, kk, t);
        } else {
          kk := EraseRotateLeft(parent, sibling, h0, s, kk, t);
          done, node', parent', k', t' := true, 0, 0, kk.up, EraseThreeLeft(kk, t);
        }
      } else {
        sibling, kk := EraseSiblingRight(parent, h0, s, k, t);
        SiblingCells(heap, root, kk, t);
        var tmp1, tmp2 := heap[sibling].left, heap[sibling].right;
        if (tmp1 == 0 || heap[tmp1].tag.color == Black) && (tmp2 == 0 || heap[tmp2].tag.color == Black) {
          done, node', parent', k', t' := EraseFlip(parent, sibling, h0, s, kk, t);
        } else {
          kk := EraseRotateRight(parent, sibling, h0, s, kk, t);
          done, node', parent', k', t' := true, 0, 0, kk.up, EraseThreeRight(kk, t);
        }
      }
    }

    /** Case 2: a black sibling with black children turns red, and so a red parent
        black, or else the parent takes over the missing black node. */
    method EraseFlip(parent: int, sibling: int, ghost h0: Memory, ghost s: seq<int>, ghost k: Path, ghost t: Tree)
      returns (done: bool, node': int, parent': int, ghost k': Path, ghost t': Tree)
      requires Refits(h0, s, (heap, root), k, t) && EraseOk(k, t) && parent == k.id
      requires Side(k).Node? && Side(k).color == Black && sibling == Side(k).id
      requires !IsRed(Side(k).left) && !IsRed(Side(k).right)
      modifies this`heap
      ensures Refits(h0, s, (heap, root), k', t')
      ensures done ==> Fits(k', t')
      ensures !done ==> EraseOk(k', t') && k' == k.up && k.color == Black && node' == Ptr(t') && parent' == k'.id
    {
      EraseFlippedOk(k, t);
      EraseFlipHolds(heap, root, k, t);
      k', t' := k.up, EraseFlipped(k, t);
      heap := SetTag(heap, sibling, Tag(parent, Red));
      RefitsTrans(h0, s, (old(heap), root), k, t, (heap, root), k', t');
      RepaintRefits(heap, root, k', t', Black);
      if heap[parent].tag.color == Red {
        ghost var h1 := heap;
        heap := SetTag(heap, parent, Tag(heap[parent].tag.parent, Black));
        RefitsTrans(h0, s, (h1, root), k', t', (heap, root), k', Paint(t', Black));
        done, node', parent', t' := true, 0, 0, Paint(t', Black);
      } else {
        node', parent' := parent, heap[parent].tag.parent;
        if !k'.Top? { ParentCell(heap, root, k', t'); }
        done := parent' == 0;
      }
    }

    /** The first case of `__rb_erase_augmented`: at most one child. */
    method UnlinkSingle(node: int, ghost k: Path, ghost t: Tree) returns (rebalance: int, ghost t': Tree)
      requires Holds(heap, root, 0, k, t) && Fits(k, t) && t.Node? && t.id == node && (t.left.Leaf? || t.right.Leaf?)
      modifies this`heap, this`root
      ensures Holds(heap, root, 0, k, t') && Unlinked(k, t, rebalance, k, t')
      ensures OnlyWithin(old(heap), heap, Ids(t) + PathIds(k))
    {
      ghost var x := if t.left.Leaf? then t.right else t.left;
      SpliceShape(heap, root, k, t, x);
      SpliceHolds(heap, root, k, t, x, Black);
      SpliceOk(k, t, x);
      PaintSame(x, Black);
      t' := Paint(x, Black);
      ReplaceShape(heap, root, k, t);
      UnlinkedSingle(k, t, x);
      var child, tmp := heap[node].right, heap[node].left;
      var tag := heap[node].tag;
      var parent := tag.parent;
      if tmp == 0 {
        ReplaceChild(node, child, parent);
        if child != 0 {
          if parent != 0 { TagAndLink(old(heap), child, tag, parent, child); }
          heap := SetTag(heap, child, tag);
          rebalance := 0;
        } else {
          rebalance := if tag.color == Black then parent else 0;
        }
      } else {
        heap := SetTag(heap, tmp, tag);
        ReplaceChild(node, tmp, parent);
        rebalance := 0;
      }
    }

    /** The successor of a node with two children, and the path down to it. */
    method FindSuccessor(node: int, ghost k: Path, ghost t: Tree)
      returns (successor: int, parent: int, ghost j: Path, ghost s: Tree)
      requires Holds(heap, root, 0, k, t) && t.Node? && t.id == node && t.right.Node?
      ensures IsSuccessor(t, j, s) && successor == s.id && parent == PathPtr(j, s.id)
    {
      ReplaceShape(heap, root, k, t);
      successor := heap[node].right;
      parent, j, s := successor, Top, t.right;
      var tmp := heap[successor].left;
      SpineCell(heap, root, k, t, j, s);
      while tmp != 0
        invariant t.right == Plug(j, s) && s.Node? && LeftSpine(j)
        invariant successor == s.id && parent == PathPtr(j, s.id) && tmp == Ptr(s.left)
        invariant Ptr(s.left) == 0 <==> s.left.Leaf?
        decreases s
      {
        j, s := InLeft(s.id, s.color, s.right, j), s.left;
        SpineCell(heap, root, k, t, j, s);
        parent := successor;
        successor := tmp;
        tmp := heap[tmp].left;
      }
    }

    /** The relinking of `__rb_erase_augmented` for a node with two children. */
    method PromoteLinks(node: int, successor: int, parent: int, child2: int, ghost near: bool)
      requires (near <==> parent == successor) && parent != node
      requires Promotable(heap, node, successor, if near then node else parent, child2)
      modifies this`heap, this`root
      ensures var p := if near then node else parent;
              var r := Spliced(old(heap), old(root), p, successor, child2, Black);
              var q := Replaced(r.0, r.1, node, successor);
              SameBut(q.0, heap, node) && root == q.1 && node in heap
    {
      var child := heap[node].right;
      if near {
        NearSame(heap, root, node, successor, child2);
      } else {
        FarSame(heap, root, node, successor, parent, child2);
      }
      if parent != successor {
        heap := SetLeft(heap, parent, child2);
        heap := SetRight(heap, successor, child);
        heap := SetTag(heap, child, Tag(successor, heap[child].tag.color));
      }
      var tmp := heap[node].left;
      heap := SetLeft(heap, successor, tmp);
      heap := SetTag(heap, tmp, Tag(successor, heap[tmp].tag.color));
      var tag := heap[node].tag;
      ReplaceChild(node, successor, tag.parent);
      if child2 != 0 { heap := SetTag(heap, child2, Tag(parent, Black)); }
      heap := SetTag(heap, successor, tag);
    }

    /** The other cases of `__rb_erase_augmented`: two children. */
    method UnlinkDouble(node: int, ghost k: Path, ghost t: Tree)
      returns (rebalance: int, ghost k': Path, ghost t': Tree)
      requires Holds(heap, root, 0, k, t) && Fits(k, t) && t.Node? && t.id == node && t.left.Node? && t.right.Node?
      modifies this`heap, this`root
      ensures Holds(heap, root, 0, k', t') && Unlinked(k, t, rebalance, k', t')
      ensures OnlyWithin(old(heap), heap, Ids(t) + PathIds(k))
    {
      var successor, parent;
      ghost var j, s;
      successor, parent, j, s := FindSuccessor(node, k, t);
      SuccessorCells(heap, root, k, t, j, s);
      PromotableShape(heap, root, k, t, j, s);
      PromoteHolds(heap, root, k, t, j, s);
      PromoteOk(k, t, j, s);
      var child2, color := heap[successor].right, heap[successor].tag.color;
      PromoteLinks(node, successor, parent, child2, j.Top?);
      k', t' := Full(s.id, t, j, k), Paint(s.right, Black);
      PromoteDone(old(heap), old(root), heap, root, k, t, j, s);
      rebalance := if child2 == 0 && color == Black then parent else 0;
    }

    /** `__rb_erase_augmented`. */
    method Unlink(node: int, ghost k: Path, ghost t: Tree) returns (rebalance: int, ghost k': Path, ghost t': Tree)
      requires Holds(heap, root, 0, k, t) && Fits(k, t) && t.Node? && t.id == node
      modifies this`heap, this`root
      ensures Holds(heap, root, 0, k', t') && Unlinked(k, t, rebalance, k', t')
      ensures OnlyWithin(old(heap), heap, Ids(t) + PathIds(k))
    {
      ReplaceShape(heap, root, k, t);
      if heap[node].left == 0 || heap[node].right == 0 {
        k' := k;
        rebalance, t' := UnlinkSingle(node, k, t);
      } else {
        rebalance, k', t' := UnlinkDouble(node, k, t);
      }
    }

    /** `rb_erase`. */
    method Erase(node: int)
      requires Valid() && node in Contents()
      modifies this`heap, this`root, this`tree
      ensures Valid() && Contents() == Remove(old(Contents()), node)
      ensures OnlyNodes(old(Contents()))
    {
      ghost var s, k, t := Spot(heap, root, tree, node);
      ghost var k', t';
      var rebalance;
      rebalance, k', t' := Unlink(node, k, t);
      if rebalance != 0 {
        EraseColor(rebalance, k');
      } else {
        HoldsWhole(heap, root, 0, k', t');
        PlugSound(k', t');
        tree := Plug(k', t');
      }
    }

    /** The descent of `rb_add` and `rb_add_cached`: the link below which `node`
        belongs, after everything that it is not less than. */
    method Descend(node: int, less: (int, int) -> bool) returns (link: Link, parent: int, leftmost: bool, ghost k: Path)
      requires Valid()
      ensures Plug(k, Leaf) == tree && Holds(heap, root, 0, k, Leaf) && Fits(k, Leaf)
      ensures link == LinkOf(k) && parent == PathPtr(k, 0) && (leftmost <==> Before(k) == [])
      ensures WeakOrder(less) && Sorted(less, Contents()) ==> Splits(less, Before(k), node, After(k))
    {
      link, parent, leftmost, k := AtRoot, 0, true, Top;
      ghost var t := tree;
      var cur := root;
      while cur != 0
        invariant Plug(k, t) == tree && Holds(heap, root, 0, k, t) && cur == Ptr(t)
        invariant link == LinkOf(k) && parent == PathPtr(k, 0) && (leftmost <==> Before(k) == [])
        invariant WeakOrder(less) && Sorted(less, Contents()) ==> Splits(less, Before(k), node, After(k))
        decreases t
      {
        ReplaceShape(heap, root, k, t);
        InorderPlug(k, t);
        if WeakOrder(less) && Sorted(less, Contents()) { SplitsDown(less, k, t, node); }
        parent := cur;
        if less(node, parent) {
          link, cur := LeftOf(parent), heap[parent].left;
          k, t := InLeft(t.id, t.color, t.right, k), t.left;
          Zoom(heap, root, k, t);
        } else {
          link, cur, leftmost := RightOf(parent), heap[parent].right, false;
          k, t := InRight(t.id, t.color, t.left, k), t.right;
          Zoom(heap, root, k, t);
        }
      }
      assert Distinct(t) && t.Leaf?;
      PlugSound(k, t);
    }

    /** `rb_link_node`. */
    method LinkAt(node: int, link: Link, parent: int)
      requires !link.AtRoot? ==> link.id in heap
      modifies this`heap, this`root
      ensures (heap, root) == LinkNode(old(heap), old(root), link, parent, node)
    {
      heap := heap[node := Cell(Tag(parent, Red), 0, 0)];
      match link {
        case AtRoot => root := node;
        case LeftOf(p) => heap := SetLeft(heap, p, node);
        case RightOf(p) => heap := SetRight(heap, p, node);
      }
    }

    /** `rb_link_node` at the end of the descent, and `rb_insert_color`. */
    method InsertAt(node: int, link: Link, parent: int, ghost k: Path)
      requires Valid() && IsAddress(node) && node !in Contents()
      requires Plug(k, Leaf) == tree && Holds(heap, root, 0, k, Leaf) && Fits(k, Leaf)
      requires link == LinkOf(k) && parent == PathPtr(k, 0)
      modifies this`heap, this`root, this`tree
      ensures Valid() && Contents() == Before(k) + [node] + After(k)
      ensures old(Contents()) == Before(k) + After(k)
      ensures OnlyNodes(Contents())
    {
      LinkNodePlace(heap, root, k, node);
      ghost var h1 := LinkNode(heap, root, link, parent, node).0;
      LinkAt(node, link, parent);
      InsertColor(node, k, Node(node, Red, Leaf, Leaf));
      WithinTrans(old(heap), h1, heap, Contents());
    }

    /** `rb_add`: `node` goes after every element that it is not less than. */
    method Add(node: int, less: (int, int) -> bool) returns (ghost at: nat)
      requires Valid() && IsAddress(node) && node !in Contents()
      modifies this`heap, this`root, this`tree
      ensures Valid() && at <= |old(Contents())|
      ensures Contents() == old(Contents())[..at] + [node] + old(Contents())[at..]
      ensures WeakOrder(less) && Sorted(less, old(Contents())) ==>
                Sorted(less, Contents()) && Splits(less, old(Contents())[..at], node, old(Contents())[at..])
      ensures OnlyNodes(Contents())
    {
      var link, parent, leftmost;
      ghost var k;
      link, parent, leftmost, k := Descend(node, less);
      InsertAt(node, link, parent, k);
      at := |Before(k)|;
      assert old(Contents())[..at] == Before(k) && old(Contents())[at..] == After(k);
      if WeakOrder(less) && Sorted(less, old(Contents())) { SortedInsert(less, Before(k), node, After(k)); }
    }

    /** `rb_first`. */
    method First() returns (n: int)
      requires Valid()
      ensures n == FirstOf(Contents())
    {
      ghost var k, t := Top, tree;
      n := root;
      if n == 0 {
        NullRoot(heap, root, tree);
        return;
      }
      NullRoot(heap, root, tree);
      n := Leftmost(n, k, t);
      InorderPlug(k, t);
    }

    /** The leftmost node below `n0`. */
    method Leftmost(n0: int, ghost k: Path, ghost t: Tree) returns (n: int)
      requires Holds(heap, root, 0, k, t) && t.Node? && n0 == t.id
      ensures Inorder(t) != [] && n == Inorder(t)[0]
    {
      n := n0;
      ghost var j, s := k, t;
      ReplaceShape(heap, root, j, s);
      while heap[n].left != 0
        invariant Holds(heap, root, 0, j, s) && s.Node? && n == s.id && n in heap && heap[n].left == Ptr(s.left)
        invariant Inorder(s)[0] == Inorder(t)[0] && (Ptr(s.left) == 0 <==> s.left.Leaf?)
        decreases s
      {
        n := heap[n].left;
        j, s := InLeft(s.id, s.color, s.right, j), s.left;
        Zoom(heap, root, j, s);
        ReplaceShape(heap, root, j, s);
        assert Distinct(s.left);
      }
    }

    /** `rb_last`. */
    method Last() returns (n: int)
      requires Valid()
      ensures n == (if Contents() == [] then 0 else Contents()[|Contents()| - 1])
    {
      NullRoot(heap, root, tree);
      n := root;
      if n == 0 {
        return;
      }
      n := Rightmost(n, Top, tree);
    }

    /** The rightmost node below `n0`. */
    method Rightmost(n0: int, ghost k: Path, ghost t: Tree) returns (n: int)
      requires Holds(heap, root, 0, k, t) && t.Node? && n0 == t.id
      ensures Inorder(t) != [] && n == Inorder(t)[|Inorder(t)| - 1]
    {
      n := n0;
      ghost var j, s := k, t;
      ReplaceShape(heap, root, j, s);
      while heap[n].right != 0
        invariant Holds(heap, root, 0, j, s) && s.Node? && n == s.id && n in heap && heap[n].right == Ptr(s.right)
        invariant Inorder(s)[|Inorder(s)| - 1] == Inorder(t)[|Inorder(t)| - 1] && (Ptr(s.right) == 0 <==> s.right.Leaf?)
        decreases s
      {
        n := heap[n].right;
        j, s := InRight(s.id, s.color, s.left, j), s.right;
        Zoom(heap, root, j, s);
        ReplaceShape(heap, root, j, s);
        assert Distinct(s.right);
      }
    }

    /** `rb_next`: the node after the `i`-th, which `node` is; 0 after the last one,
        and for a node marked as being in no tree. */
    method Next(node: int) returns (n: int, ghost i: nat)
      requires Valid() && node in heap && (node in Contents() || heap[node].tag == Tag(node, Red))
      ensures node in Contents() ==> i < |Contents()| && Contents()[i] == node && n == At(Contents(), i + 1)
      ensures node !in Contents() ==> n == 0
    {
      i := 0;
      if heap[node].tag == Tag(node, Red) {
        if node in Contents() {
          ghost var _, k, t := Spot(heap, root, tree, node);
          ReplaceShape(heap, root, k, t);
          assert false;
        }
        return 0, 0;
      }
      ghost var _, k, t := Spot(heap, root, tree, node);
      ReplaceShape(heap, root, k, t);
      PlaceOf(k, t);
      i := |Before(k) + Inorder(t.left)|;
      ghost var rest := Inorder(t.right) + After(k);
      assert Contents()[i] == node && Contents()[i + 1..] == rest;
      if heap[node].right != 0 {
        Zoom(heap, root, InRight(t.id, t.color, t.left, k), t.right);
        n := Leftmost(heap[node].right, InRight(t.id, t.color, t.left, k), t.right);
        assert n == rest[0];
      } else {
        n := ClimbFromRight(node, k, t);
        assert rest == After(k);
      }
    }

    /** Upwards while coming from a right child: the first ancestor after `node0`. */
    method ClimbFromRight(node0: int, ghost k0: Path, ghost t0: Tree) returns (parent: int)
      requires Holds(heap, root, 0, k0, t0) && t0.Node? && node0 == t0.id
      ensures parent == FirstOf(After(k0))
    {
      ghost var k, t := k0, t0;
      ReplaceShape(heap, root, k, t);
      var node := node0;
      parent := heap[node].tag.parent;
      if !k.Top? { ParentCell(heap, root, k, t); }
      while parent != 0 && node == heap[parent].right
        invariant Holds(heap, root, 0, k, t) && t.Node? && node == t.id && parent == PathPtr(k, 0)
        invariant parent != 0 ==> parent in heap && !k.Top? && (k.InLeft? <==> heap[parent].right != node)
        invariant parent == 0 ==> k.Top?
        invariant After(k) == After(k0)
        decreases k
      {
        Zoom(heap, root, k, t);
        k, t := k.up, Join(k, t);
        ReplaceShape(heap, root, k, t);
        node := parent;
        parent := heap[node].tag.parent;
        if !k.Top? { ParentCell(heap, root, k, t); }
      }
    }

    /** `rb_prev`, the mirror image of `rb_next`. */
    method Prev(node: int) returns (n: int, ghost i: nat)
      requires Valid() && node in heap && (node in Contents() || heap[node].tag == Tag(node, Red))
      ensures node in Contents() ==> i < |Contents()| && Contents()[i] == node && n == At(Contents(), i - 1)
      ensures node !in Contents() ==> n == 0
    {
      i := 0;
      if heap[node].tag == Tag(node, Red) {
        if node in Contents() {
          ghost var _, k, t := Spot(heap, root, tree, node);
          ReplaceShape(heap, root, k, t);
          assert false;
        }
        return 0, 0;
      }
      ghost var _, k, t := Spot(heap, root, tree, node);
      ReplaceShape(heap, root, k, t);
      PlaceOf(k, t);
      ghost var rest := Before(k) + Inorder(t.left);
      i := |rest|;
      EndOfPrefix(rest, node, Inorder(t.right) + After(k));
      EndOfSum(Before(k), Inorder(t.left));
      if heap[node].left != 0 {
        Zoom(heap, root, InLeft(t.id, t.color, t.right, k), t.left);
        n := Rightmost(heap[node].left, InLeft(t.id, t.color, t.right, k), t.left);
      } else {
        n := ClimbFromLeft(node, k, t);
      }
    }

    /** Upwards while coming from a left child: the last ancestor before `node0`. */
    method ClimbFromLeft(node0: int, ghost k0: Path, ghost t0: Tree) returns (parent: int)
      requires Holds(heap, root, 0, k0, t0) && t0.Node? && node0 == t0.id
      ensures parent == At(Before(k0), |Before(k0)| - 1)
    {
      ghost var k, t := k0, t0;
      ReplaceShape(heap, root, k, t);
      var node := node0;
      parent := heap[node].tag.parent;
      if !k.Top? { ParentCell(heap, root, k, t); }
      while parent != 0 && node == heap[parent].left
        invariant Holds(heap, root, 0, k, t) && t.Node? && node == t.id && parent == PathPtr(k, 0)
        invariant parent != 0 ==> parent in heap && !k.Top? && (k.InLeft? <==> heap[parent].left == node)
        invariant parent == 0 ==> k.Top?
        invariant Before(k) == Before(k0)
        decreases k
      {
        Zoom(heap, root, k, t);
        k, t := k.up, Join(k, t);
        ReplaceShape(heap, root, k, t);
        node := parent;
        parent := heap[node].tag.parent;
        if !k.Top? { ParentCell(heap, root, k, t); }
      }
    }

    /** Iterating from `rb_first` by `rb_next` visits every node once, in order. */
    method Traverse() returns (visited: seq<int>)
      requires Valid()
      ensures visited == Contents()
    {
      visited := [];
      var n := First();
      InorderIds(tree);
      NullIsNoName(tree);
      assert 0 !in Contents();
      while n != 0
        invariant |visited| < |Contents()| ==> n in Contents()
        invariant |visited| <= |Contents()| && visited == Contents()[..|visited|] && n == At(Contents(), |visited|)
        decreases |Contents()| - |visited|
      {
        ghost var i;
        visited := visited + [n];
        InHeap(heap, root, tree, n);
        n, i := Next(n);
        UniqueIndex(tree, i, |visited| - 1);
      }
    }

    /** `rb_find`: a node on which `cmp` is zero, or none if there is none. */
    method Find(cmp: int -> int) returns (node: int)
      requires Valid()
      ensures node != 0 ==> node in Contents() && cmp(node) == 0
      ensures node == 0 && Places(cmp, Contents()) ==> Misses(cmp, Contents())
    {
      node := root;
      ghost var k, t := Top, tree;
      while node != 0
        invariant Plug(k, t) == tree && Holds(heap, root, 0, k, t) && node == Ptr(t)
        invariant Places(cmp, Contents()) ==> Misses(cmp, Before(k)) && Misses(cmp, After(k))
        decreases t
      {
        ReplaceShape(heap, root, k, t);
        InorderPlug(k, t);
        if Places(cmp, Contents()) { MissesDown(cmp, k, t); }
        var c := cmp(node);
        if c < 0 {
          node := heap[node].left;
          k, t := InLeft(t.id, t.color, t.right, k), t.left;
        } else if c > 0 {
          node := heap[node].right;
          k, t := InRight(t.id, t.color, t.left, k), t.right;
        } else {
          assert node in Inorder(t);
          return;
        }
        Zoom(heap, root, k, t);
      }
      assert Distinct(t) && t.Leaf?;
      InorderPlug(k, t);
    }
  }

  lemma {:induction false} InHeap(h: Memory, top: int, tree: Tree, n: int)
    requires Holds(h, top, 0, Top, tree) && n in Inorder(tree)
    ensures n in h
  {
    InorderIds(tree);
    var k, t := Locate(Top, tree, n);
    HoldsWhole(h, top, 0, k, t);
  }

  /** `rb_root_cached`: a tree that remembers its first node. */
  class CachedTree {
    const base: RbTree
    var leftmost: int

    ghost predicate Valid()
      reads this, base
    {
      base.Valid() && leftmost == FirstOf(base.Contents())
    }

    constructor ()
      ensures Valid() && base.Contents() == [] && fresh(base)
    {
      base := new RbTree();
      leftmost := 0;
    }

    /** `rb_add_cached`. */
    method Add(node: int, less: (int, int) -> bool) returns (first: int, ghost at: nat)
      requires Valid() && IsAddress(node) && node !in base.Contents()
      modifies this, base
      ensures Valid() && first == (if leftmost == node then node else 0) && at <= |old(base.Contents())|
      ensures base.Contents() == old(base.Contents())[..at] + [node] + old(base.Contents())[at..]
      ensures WeakOrder(less) && Sorted(less, old(base.Contents())) ==> Sorted(less, base.Contents())
      ensures WeakOrder(less) && Sorted(less, old(base.Contents())) ==>
                Splits(less, old(base.Contents())[..at], node, old(base.Contents())[at..])
    {
      var link, parent, isFirst;
      ghost var k;
      link, parent, isFirst, k := base.Descend(node, less);
      ghost var s := base.Contents();
      if isFirst {
        leftmost := node;
      }
      base.InsertAt(node, link, parent, k);
      at := |Before(k)|;
      assert s[..at] == Before(k) && s[at..] == After(k);
      if WeakOrder(less) && Sorted(less, s) { SortedInsert(less, Before(k), node, After(k)); }
      assert !isFirst ==> leftmost == Before(k)[0] && leftmost in s;
      first := if isFirst then node else 0;
    }

    /** `rb_erase_cached`. It returns the new first node only when that changed, and
        so NULL after erasing any other node. */
    method Erase(node: int) returns (first: int)
      requires Valid() && node in base.Contents()
      modifies this, base
      ensures Valid() && base.Contents() == Remove(old(base.Contents()), node)
      ensures first == (if old(leftmost) == node then leftmost else 0)
    {
      first := 0;
      ghost var s := base.Contents();
      InHeap(base.heap, base.root, base.tree, node);
      if leftmost == node {
        ghost var i;
        first, i := base.Next(node);
        UniqueIndex(base.tree, i, 0);
        leftmost := first;
      }
      base.Erase(node);
    }
  }
}
