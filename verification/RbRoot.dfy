/** struct rb_root with the in-place operations of kernel/rbtree.c and
    kernel/include/rbtree_augmented.h: insertion and erasure with their colour fix-ups. */
module RbRoot {
  import opened Seqs
  import opened RbTree
  import opened RbLinks
  import opened RbInsertFix
  import opened RbEraseFix
  import opened RbUnlink

  class RbRoot {
    var h: Arena
    var root: Ptr
    ghost var tree: Tree

    /** The nodes in memory spell out `tree`, parent and child links agreeing. */
    ghost predicate Linked()
      reads this
    {
      Rep(h, tree, NULL) && root == Root(tree) && Distinct(tree)
    }

    ghost predicate Valid()
      reads this
    {
      Linked() && IsRb(tree)
    }

    /** RB_ROOT */
    constructor ()
      ensures Valid() && tree == Leaf && h == map[]
    {
      h, root, tree := map[], NULL, Leaf;
      new;
      assert HasBh(tree, 0);
    }

    /** __rb_change_child */
    method ChangeChild(old_: Ptr, new_: Ptr, parent: Ptr)
      requires parent != NULL ==> parent in h
      modifies this`h, this`root
      ensures parent == NULL ==> h == old(h) && root == new_
      ensures parent != NULL ==> root == old(root) && h == SetChild(old(h), parent, old(h)[parent].left != old_, new_)
    {
      if parent != NULL {
        if h[parent].left == old_ {
          h := SetChild(h, parent, false, new_);
        } else {
          h := SetChild(h, parent, true, new_);
        }
      } else {
        root := new_;
      }
    }

    /** __rb_rotate_set_parents */
    method RotateSetParents(old_: Ptr, new_: Ptr, black: bool)
      requires old_ in h && new_ in h && old_ != new_
      requires h[old_].parent != NULL ==> h[old_].parent in h && h[old_].parent != old_ && h[old_].parent != new_
      modifies this`h, this`root
      ensures var p := old(h)[old_].parent;
              var h1 := SetParentColor(SetParentColor(old(h), new_, p, old(h)[old_].black), old_, new_, black);
              if p == NULL then h == h1 && root == new_
              else root == old(root) && h == SetChild(h1, p, h1[p].left != old_, new_)
    {
      var parent := h[old_].parent;
      h := SetParentColor(h, new_, h[old_].parent, h[old_].black);
      h := SetParentColor(h, old_, new_, black);
      ChangeChild(old_, new_, parent);
    }

    /** The link changes every rotation starts with: y, child e of x, hands its inner subtree to x
        and takes x as its own child. */
    method Relink(x: Ptr, y: Ptr, e: bool, repaint: bool, ghost mid: Tree, ghost p: Ptr)
      requires x in h && y in h && x != y && Root(mid) == h[y].Child(!e)
      requires Rep(h, mid, p) && RootOnce(mid) && x !in Ids(mid) && y !in Ids(mid) && (repaint ==> IsBlack(mid))
      modifies this`h
      ensures x in h && h[x] == old(h)[x].SetChild(e, Root(mid))
      ensures y in h && h[y] == old(h)[y].SetChild(!e, x)
      ensures Unchanged(old(h), h, {x, y} + RootSet(mid))
      ensures Rep(h, mid, x)
    {
      var tmp := h[y].Child(!e);
      h := SetChild(h, x, e, tmp);
      h := SetChild(h, y, !e, x);
      if tmp != NULL {
        if repaint {
          h := SetParentColor(h, tmp, x, true);
        } else {
          h := SetParent(h, tmp, x);
        }
      }
      MovedRoot(old(h), h, mid, p, x);
    }

    /** Rotation of x below its child y on side e: x gets colour xBlack, y takes over x's colour and place. */
    method Rotate(x: Ptr, y: Ptr, e: bool, xBlack: bool, repaint: bool,
                  ghost up: Ctx, ghost near: Tree, ghost mid: Tree, ghost far: Tree)
      requires x != NULL && y != NULL && x in h && y in h
      requires h[x].parent == Parent(up, NULL) && h[x].Child(!e) == Root(far) && Rep(h, far, x)
      requires h[y].Child(e) == Root(near) && Rep(h, near, y) && h[y].Child(!e) == Root(mid) && Rep(h, mid, y)
      requires repaint ==> IsBlack(mid)
      requires RepCtx(h, up, x, root, NULL)
      requires Apart(up, x, y, near, mid, far)
      modifies this`h, this`root
      ensures RepCtx(h, up, y, root, NULL)
      ensures Rep(h, Mk(e, y, old(h)[x].black, near, Mk(e, x, xBlack, mid, far)), Parent(up, NULL))
      ensures Unchanged(old(h), h, {x, y, Parent(up, NULL)} + RootSet(mid))
    {
      ghost var h0, root0 := h, root;
      ApartChanged(up, x, y, near, mid, far);
      Relink(x, y, e, repaint, mid, y);
      ghost var h1 := RotateHalf(h0, h, root, x, y, e, xBlack, up, near, mid, far);
      RotateSetParents(x, y, xBlack);
      TakePlace(h1, h, root0, root, up, Mk(e, y, h0[x].black, near, Mk(e, x, xBlack, mid, far)), x);
    }

    /** Case 2 of __rb_insert turns the bent path from gparent to node into a straight one. */
    method InsertStraighten(node: Ptr, parent: Ptr, d: bool, ghost c: Ctx, ghost t: Tree)
      requires t.Node? && !t.black && NoRedRed(t) && RedParentCtx(c) && c.side != d && d == c.up.side
      requires RepCtx(h, c, t.id, root, NULL) && Rep(h, t, c.id) && Distinct(Plug(c, t))
      requires node == t.id && parent == c.id
      modifies this`h
      ensures node in h && h[node].Child(d) == parent && h[node].Child(!d) == Root(Side(t, !d))
      ensures Rep(h, Side(t, !d), node) && Rep(h, Mk(d, parent, false, c.sibling, Side(t, d)), node)
      ensures Agree(old(h), h, CtxIds(c.up))
    {
      PlugIds(c, t);
      ghost var near, far, h0 := Side(t, d), Side(t, !d), h;
      Relink(parent, node, !d, true, near, node);
      ghost var h1 := h;
      h := SetParentColor(h, parent, node, false);
      RepFrame(h0, h, far, node);
      RepFrame(h1, h, near, parent);
      RepFrame(h0, h, c.sibling, parent);
    }

    /** Cases 2 and 3 of __rb_insert: the rotations that end it. */
    method InsertRotate(node: Ptr, parent: Ptr, gparent: Ptr, d: bool, ghost c: Ctx, ghost t: Tree, ghost n: nat)
      requires InsertState(h, root, c, t, n, InOrder(Plug(c, t))) && RedParentCtx(c) && IsBlack(c.up.sibling)
      requires node == t.id && parent == c.id && gparent == c.up.id && d == c.up.side
      modifies this
      ensures IsRbIn(h, root, tree, InOrder(Plug(c, t)))
    {
      InsertLinks(h, root, c, t);
      RotatedOrder(c, t);
      assert Plug(c, t) == Plug(c.up.up, Violating(c, t));
      PlugSame(c.up.up, Violating(c, t), Rotated(c, t));
      if node == h[parent].Child(!d) {
        ghost var near, far := Side(t, d), Side(t, !d);
        InsertStraighten(node, parent, d, c, t);
        RepCtxFrame(old(h), h, c.up, c.id, root, NULL);
        assert RepCtx(h, c.up.up, c.up.id, root, NULL) && h[gparent] == old(h)[gparent];
        assert Rotated(c, t) == Mk(d, node, true, Mk(d, parent, false, c.sibling, near), Mk(d, gparent, false, far, c.up.sibling));
        PartsApart(c.up.up, d, gparent, node, true, false, Mk(d, parent, false, c.sibling, near), far, c.up.sibling);
        Rotate(gparent, node, d, false, true, c.up.up, Mk(d, parent, false, c.sibling, near), far, c.up.sibling);
      } else {
        assert Rotated(c, t) == Mk(d, parent, true, t, Mk(d, gparent, false, c.sibling, c.up.sibling));
        PartsApart(c.up.up, d, gparent, parent, true, false, t, c.sibling, c.up.sibling);
        Rotate(gparent, parent, d, false, true, c.up.up, t, c.sibling, c.up.sibling);
      }
      InsertRotated(h, root, c, t, n);
      tree := Plug(c.up.up, Rotated(c, t));
    }

    /** __rb_insert: the colour fix-up after a red node was linked at a leaf. */
    method InsertColor(node0: Ptr, ghost c0: Ctx)
      requires tree == Plug(c0, Node(node0, false, Leaf, Leaf)) && Linked()
      requires IsRb(Plug(c0, Leaf))
      modifies this
      ensures Valid() && InOrder(tree) == InOrder(old(tree))
    {
      ghost var c, t, order := c0, Node(node0, false, Leaf, Leaf), InOrder(tree);
      ghost var n := RbPlug(c0, Leaf);
      RepPlug(h, c, t, root, NULL);
      var node := node0;
      var parent := RedParent(h, node);
      while true
        invariant t.Node? && t.id == node && parent == Parent(c, NULL)
        invariant InsertState(h, root, c, t, n, order)
        decreases c
      {
        if parent == NULL {
          InsertAtRoot(h, root, t, n, order);
          h := SetParentColor(h, node, NULL, true);
          tree := t.(black := true);
          break;
        } else if h[parent].black {
          InsertBelowBlack(h, root, c, t, n, order);
          tree := Plug(c, t);
          break;
        }
        InsertLinks(h, root, c, t);
        var gparent := RedParent(h, parent);
        var d := parent == h[gparent].right;
        var tmp := h[gparent].Child(!d);
        if tmp != NULL && !h[tmp].black {
          // Case 1 - color flips
          ghost var h0 := h;
          h := SetParentColor(h, tmp, gparent, true);
          h := SetParentColor(h, parent, gparent, true);
          node := gparent;
          parent := h[node].parent;
          h := SetParentColor(h, node, parent, false);
          InsertFlip(h0, h, root, c, t, n, order);
          c, t, n := c.up.up, Flipped(c, t), n + 1;
        } else {
          InsertRotate(node, parent, gparent, d, c, t, n);
          break;
        }
      }
    }

    /** Case 1 of ____rb_erase_color: a rotation that gives the short side a black sibling. */
    method EraseRedSibling(parent: Ptr, sibling: Ptr, d: bool, ghost c: Ctx, ghost t: Tree, ghost n: nat, ghost order: seq<Ptr>)
      returns (tmp1: Ptr)
      requires EraseState(h, root, c, t, n, order) && c.sibling.Node? && !c.sibling.black
      requires parent == c.id && sibling == c.sibling.id && d == c.side
      modifies this`h, this`root
      ensures EraseState(h, root, BlackSibling(c), t, n, order)
      ensures tmp1 != NULL && tmp1 == Root(Side(c.sibling, d))
    {
      EraseLinks(h, root, c, t, n, order);
      EraseReps(h, root, c, t, n, order);
      BlackSiblingShape(c, t, n);
      tmp1 := h[sibling].Child(d);
      PartsApart(c.up, !d, parent, sibling, true, false, Side(c.sibling, !d), Side(c.sibling, d), t);
      Rotate(parent, sibling, !d, false, true, c.up, Side(c.sibling, !d), Side(c.sibling, d), t);
      ghost var m := Mk(!d, parent, false, Side(c.sibling, d), t);
      RepPlug(h, c.up, Mk(!d, sibling, true, Side(c.sibling, !d), m), root, NULL);
      RepPlug(h, BlackSibling(c), t, root, NULL);
    }

    /** Case 3 of ____rb_erase_color: the inner nephew takes the sibling's place. Its own parent and colour
        and the old sibling's are only set by case 4. */
    method EraseInnerNephew(parent: Ptr, sibling: Ptr, tmp2: Ptr, d: bool,
                            ghost c: Ctx, ghost t: Tree, ghost n: nat, ghost order: seq<Ptr>)
      requires EraseState(h, root, c, t, n, order) && c.sibling.Node? && d == c.side
      requires IsBlack(Side(c.sibling, !d)) && !IsBlack(Side(c.sibling, d))
      requires parent == c.id && sibling == c.sibling.id && tmp2 == Root(Side(c.sibling, d))
      modifies this`h
      ensures var s, i := c.sibling, Side(c.sibling, d);
              Refillable(h, root, c.up, parent, c.black, d, tmp2, Mk(!d, s.id, true, Side(s, !d), Side(i, !d)), Side(i, d), t)
    {
      ghost var h0, i := h, Side(c.sibling, d);
      EraseLinks(h, root, c, t, n, order);
      EraseReps(h, root, c, t, n, order);
      RedChildren(c.sibling, d, !d);
      assert sibling != tmp2 && sibling != parent && parent != tmp2 && RootOnce(Side(i, !d))
          && sibling !in Ids(Side(i, !d)) && tmp2 !in Ids(Side(i, !d)) && parent !in Ids(Side(i, !d)) by {
        RefillApart(c, t);
        InnerChanged(c.up, c.id, c.sibling.id, i.id, Side(c.sibling, !d), Side(i, !d), Side(i, d), t, !d);
      }
      Relink(sibling, tmp2, d, true, Side(i, !d), tmp2);
      InnerNephewReady(h0, h, root, c, t, n, order);
      h := SetChild(h, parent, !d, tmp2);
    }

    /** Case 4 of ____rb_erase_color: a rotation at the parent and colour flips. */
    method EraseOuterNephew(parent: Ptr, sibling: Ptr, tmp1: Ptr, d: bool, ghost up: Ctx, ghost near: Tree, ghost mid: Tree, ghost t: Tree)
      requires parent in h && Refillable(h, root, up, parent, h[parent].black, d, sibling, near, mid, t) && tmp1 == near.id
      modifies this`h, this`root
      ensures RepCtx(h, up, sibling, root, NULL)
      ensures Rep(h, Mk(!d, sibling, old(h)[parent].black, near.(black := true), Mk(!d, parent, true, mid, t)), Parent(up, NULL))
    {
      ghost var h0, near' := h, near.(black := true);
      h := SetParentColor(h, tmp1, sibling, true);
      OuterNephewPainted(h0, h, root, up, parent, d, sibling, near, mid, t);
      Rotate(parent, sibling, !d, true, false, up, near', mid, t);
    }

    /** Case 2 of ____rb_erase_color: sibling color flip. Returns where to go on, NULL when done. */
    method EraseSiblingFlip(parent: Ptr, sibling: Ptr, ghost c: Ctx, ghost t: Tree, ghost n: nat, ghost order: seq<Ptr>)
      returns (up: Ptr)
      requires EraseState(h, root, c, t, n, order) && c.sibling.Node? && c.sibling.black
      requires IsBlack(c.sibling.left) && IsBlack(c.sibling.right)
      requires parent == c.id && sibling == c.sibling.id
      modifies this
      ensures up == NULL ==> IsRbIn(h, root, tree, order)
      ensures up != NULL ==> c.black && c.up.Frame? && up == c.up.id && EraseState(h, root, c.up, RedSibling(c, t), n + 1, order)
    {
      EraseLinks(h, root, c, t, n, order);
      ghost var h0 := h;
      h := SetParentColor(h, sibling, parent, false);
      if !h[parent].black {
        h := h[parent := h[parent].(black := true)];
        up := NULL;
      } else {
        up := h[parent].parent;
      }
      EraseFlip(h0, h, root, c, t, n, order);
      if up == NULL {
        tree := Plug(c.up, RedSibling(c, t));
      }
    }

    /** Cases 3 and 4 of ____rb_erase_color: the rotations that end it. */
    method EraseRefill(parent: Ptr, sibling: Ptr, tmp1: Ptr, tmp2: Ptr, d: bool,
                       ghost c: Ctx, ghost t: Tree, ghost n: nat, ghost order: seq<Ptr>)
      requires EraseState(h, root, c, t, n, order) && c.sibling.Node? && c.sibling.black && d == c.side
      requires !IsBlack(Side(c.sibling, !d)) || !IsBlack(Side(c.sibling, d))
      requires parent == c.id && sibling == c.sibling.id && tmp1 == Root(Side(c.sibling, !d)) && tmp2 == Root(Side(c.sibling, d))
      modifies this
      ensures IsRbIn(h, root, tree, order)
    {
      EraseLinks(h, root, c, t, n, order);
      if tmp1 == NULL || h[tmp1].black {
        EraseInnerNephew(parent, sibling, tmp2, d, c, t, n, order);
        EraseOuterNephew(parent, tmp2, sibling, d, c.up, Side(Refilled(c, t), !d), Side(Side(c.sibling, d), d), t);
      } else {
        OuterNephewReady(h, root, c, t, n, order);
        EraseOuterNephew(parent, sibling, tmp1, d, c.up, Side(c.sibling, !d), Side(c.sibling, d), t);
      }
      EraseRotated(h, root, c, t, n);
      tree := Plug(c.up, Refilled(c, t));
    }

    /** ____rb_erase_color: all paths through the empty child of parent are one black node short. */
    method EraseColor(parent0: Ptr, ghost c0: Ctx)
      requires tree == Plug(c0, Leaf) && Linked() && c0.Frame? && parent0 == c0.id
      requires CtxBh(c0, 1) && CtxOk(c0)
      modifies this
      ensures Valid() && InOrder(tree) == InOrder(old(tree))
    {
      ghost var c, t: Tree, n, order := c0, Leaf, 0, InOrder(tree);
      RepPlug(h, c, t, root, NULL);
      var node, parent := NULL, parent0;
      while true
        invariant EraseState(h, root, c, t, n, order) && node == Root(t) && parent == c.id
        decreases c
      {
        EraseLinks(h, root, c, t, n, order);
        var d := node == h[parent].right;
        var sibling := h[parent].Child(!d);
        ghost var c1 := c;
        if !h[sibling].black {
          var tmp := EraseRedSibling(parent, sibling, d, c, t, n, order);
          c1 := BlackSibling(c);
          sibling := tmp;
          EraseLinks(h, root, c1, t, n, order);
        }
        var tmp1, tmp2 := h[sibling].Child(!d), h[sibling].Child(d);
        if (tmp1 == NULL || h[tmp1].black) && (tmp2 == NULL || h[tmp2].black) {
          var up := EraseSiblingFlip(parent, sibling, c1, t, n, order);
          if up == NULL {
            break;
          }
          node, parent := parent, up;
          c, t, n := c1.up, RedSibling(c1, t), n + 1;
        } else {
          EraseRefill(parent, sibling, tmp1, tmp2, d, c1, t, n, order);
          break;
        }
      }
    }

    /** The search for the in-order successor in __rb_erase_augmented, below the right child. */
    method FindSuccessor(child: Ptr, ghost node: Ptr, ghost r: Tree)
      returns (parent: Ptr, successor: Ptr, ghost rel: Ctx, ghost s: Tree)
      requires r.Node? && child == r.id && Rep(h, r, node)
      ensures r == Plug(rel, s) && AllLeft(rel) && s.Node? && s.left == Leaf && successor == s.id
      ensures RepCtx(h, rel, successor, child, node) && Rep(h, s, Parent(rel, node))
      ensures parent == if rel.Top? then successor else rel.id
    {
      rel, s := Top, r;
      parent, successor := child, child;
      var tmp := h[child].left;
      while tmp != NULL
        invariant r == Plug(rel, s) && AllLeft(rel) && s.Node? && tmp == Root(s.left) && successor == s.id
        invariant RepCtx(h, rel, successor, child, node) && Rep(h, s, Parent(rel, node))
        invariant parent == if rel.Top? then successor else rel.id
        invariant tmp != NULL ==> s.left.Node?
        decreases s
      {
        parent := successor;
        successor := tmp;
        tmp := h[tmp].left;
        rel, s := Frame(false, s.id, s.black, s.right, rel), s.left;
      }
    }

    /** __rb_erase_augmented, case 1: no child on one side. */
    method EraseEasy(node: Ptr, ghost c: Ctx, ghost t: Tree) returns (rebalance: Ptr)
      requires Valid() && tree == Plug(c, t) && t.Node? && t.id == node && (t.left == Leaf || t.right == Leaf)
      modifies this
      ensures Linked() && InOrder(tree) == Without(InOrder(old(tree)), node)
      ensures rebalance == NULL ==> IsRb(tree)
      ensures rebalance != NULL ==> tree == Plug(c, Leaf) && c.Frame? && rebalance == c.id && CtxBh(c, 1) && CtxOk(c)
    {
      ghost var h0, root0, s := h, root, if t.left == Leaf then t.right else t.left;
      RepPlug(h, c, t, root, NULL);
      PlugIds(c, t);
      var child, tmp := h[node].right, h[node].left;
      var parent := h[node].parent;
      if tmp == NULL {
        ChangeChild(node, child, parent);
        if child != NULL {
          h := SetParentColor(h, child, parent, h[node].black);
          rebalance := NULL;
        } else {
          rebalance := if h[node].black then parent else NULL;
        }
      } else {
        h := SetParentColor(h, tmp, parent, h[node].black);
        ChangeChild(node, tmp, parent);
        rebalance := NULL;
      }
      SpliceInMemory(h0, h, root0, root, c, t, s);
      SpliceShape(c, t, s);
      SpliceOrder(c, t, s, Repainted(s, t.black));
      tree := Plug(c, Repainted(s, t.black));
    }

    /** __rb_erase_augmented, cases 2 and 3: the successor takes the node's place. */
    method EraseInner(node: Ptr, ghost c: Ctx, ghost t: Tree) returns (rebalance: Ptr, ghost hole: Ctx)
      requires Valid() && tree == Plug(c, t) && t.Node? && t.id == node && t.left.Node? && t.right.Node?
      modifies this
      ensures Linked() && InOrder(tree) == Without(InOrder(old(tree)), node)
      ensures rebalance == NULL ==> IsRb(tree)
      ensures rebalance != NULL ==> tree == Plug(hole, Leaf) && hole.Frame? && rebalance == hole.id && CtxBh(hole, 1) && CtxOk(hole)
    {
      RepPlug(h, c, t, root, NULL);
      var child := h[node].right;
      var parent, successor;
      ghost var rel, s;
      parent, successor, rel, s := FindSuccessor(child, node, t.right);
      var child2 := h[successor].right;
      rebalance := SuccessorMove(node, child, parent, successor, child2, c, t, rel, s);
      hole := SuccessorHole(c, t, rel, s.id);
      SuccessorShape(c, t, rel, s);
      SuccessorOrder(c, t, rel, s, Repainted(s.right, true));
      tree := Plug(hole, Repainted(s.right, true));
    }

    /** The pointer updates of cases 2 and 3. */
    method SuccessorMove(node: Ptr, child: Ptr, parent: Ptr, successor: Ptr, child2: Ptr,
                         ghost c: Ctx, ghost t: Tree, ghost rel: Ctx, ghost s: Tree) returns (rebalance: Ptr)
      requires t.Node? && t.id == node && t.left.Node? && s.Node? && s.left == Leaf && t.right == Plug(rel, s) && AllLeft(rel)
      requires Rep(h, Plug(c, t), NULL) && root == Root(Plug(c, t)) && Distinct(Plug(c, t))
      requires child == Root(t.right) && successor == s.id && child2 == Root(s.right)
      requires parent == if rel.Top? then successor else rel.id
      modifies this`h, this`root
      ensures var tree' := Plug(c, Node(s.id, t.black, t.left, Plug(rel, Repainted(s.right, true))));
              Rep(h, tree', NULL) && root == Root(tree')
      ensures rebalance == if child2 == NULL && s.black then parent else NULL
    {
      ghost var h0, root0 := h, root;
      ErasedReads(h, root, c, t, rel, s);
      ErasedFacts(c, t, rel, s, Root(t.right));
      SuccessorDetach(node, child, parent, successor, child2, c, t, rel, s);
      ghost var h1 := h;
      rebalance := SuccessorAttach(node, parent, successor, child2);
      SuccessorDone(h0, h1, h, root0, root, c, t, rel, s);
    }

    /** The last of them: the successor takes over the node's parent and colour. */
    method SuccessorAttach(node: Ptr, parent: Ptr, successor: Ptr, child2: Ptr) returns (rebalance: Ptr)
      requires node in h && successor in h && node != successor && (child2 != NULL ==> child2 in h && child2 !in {node, successor})
      requires h[node].parent != NULL ==> h[node].parent in h && h[node].parent !in {node, successor, child2}
      modifies this`h, this`root
      ensures h.Keys == old(h).Keys
      ensures h[successor] == old(h)[successor].(parent := old(h)[node].parent, black := old(h)[node].black)
      ensures child2 != NULL ==> h[child2] == old(h)[child2].(parent := parent, black := true)
      ensures old(h)[node].parent == NULL ==> root == successor
      ensures var p := old(h)[node].parent; p != NULL ==> root == old(root) && h[p] == old(h)[p].SetChild(old(h)[p].left != node, successor)
      ensures Unchanged(old(h), h, {successor} + PtrSet(child2) + PtrSet(old(h)[node].parent))
      ensures rebalance == if child2 == NULL && old(h)[successor].black then parent else NULL
    {
      var pcParent, pcBlack := h[node].parent, h[node].black;
      ChangeChild(node, successor, pcParent);
      if child2 != NULL {
        h := SetParentColor(h, successor, pcParent, pcBlack);
        h := SetParentColor(h, child2, parent, true);
        rebalance := NULL;
      } else {
        var black2 := h[successor].black;
        h := SetParentColor(h, successor, pcParent, pcBlack);
        rebalance := if black2 then parent else NULL;
      }
    }

    /** The first of them: the successor leaves its place and takes over both children. */
    method SuccessorDetach(node: Ptr, child: Ptr, parent: Ptr, successor: Ptr, child2: Ptr,
                           ghost c: Ctx, ghost t: Tree, ghost rel: Ctx, ghost s: Tree)
      requires t.Node? && t.id == node && t.left.Node? && s.Node? && s.left == Leaf && t.right == Plug(rel, s)
      requires Rep(h, Plug(c, t), NULL) && root == Root(Plug(c, t)) && Distinct(Plug(c, t))
      requires child == Root(t.right) && successor == s.id && child2 == Root(s.right)
      requires parent == if rel.Top? then successor else rel.id
      modifies this`h
      ensures old(h).Keys == h.Keys && successor in h && t.left.id in h
      ensures h[successor] == old(h)[successor].(left := t.left.id, right := if rel.Top? then Root(s.right) else child)
      ensures h[t.left.id] == old(h)[t.left.id].(parent := s.id)
      ensures rel.Frame? ==> parent in h && child in h
      ensures rel.Frame? ==> h[parent] == EndNode(old(h), rel, rel.id, child2, child, s.id)
      ensures rel.Frame? ==> h[child] == EndNode(old(h), rel, child, child2, child, s.id)
      ensures Unchanged(old(h), h, {s.id, t.left.id} + EndSet(t, rel))
    {
      ErasedReads(h, root, c, t, rel, s);
      ErasedFacts(c, t, rel, s, Root(t.right));
      if parent != successor {
        h := SetChild(h, parent, false, child2);
        h := SetChild(h, successor, true, child);
        h := SetParent(h, child, successor);
      }
      var tmp := h[node].left;
      h := SetChild(h, successor, false, tmp);
      h := SetParent(h, tmp, successor);
    }

    /** rb_erase */
    method Erase(node: Ptr)
      requires Valid() && node in Ids(tree)
      modifies this
      ensures Valid() && InOrder(tree) == Without(InOrder(old(tree)), node)
    {
      ghost var c, t := Locate(Top, tree, node);
      RepPlug(h, c, t, root, NULL);
      var rebalance: Ptr;
      ghost var hole: Ctx := c;
      if h[node].left == NULL || h[node].right == NULL {
        rebalance := EraseEasy(node, c, t);
      } else {
        rebalance, hole := EraseInner(node, c, t);
      }
      if rebalance != NULL {
        EraseColor(rebalance, hole);
      }
    }

    /** rb_link_node, then rb_insert_color: a new node at a NULL link below parent. */
    method LinkAndColor(node: Ptr, parent: Ptr, side: bool, ghost c: Ctx)
      requires Valid() && tree == Plug(c, Leaf) && parent == Parent(c, NULL) && (c.Frame? ==> side == c.side)
      requires node != NULL && node !in Ids(tree)
      modifies this
      ensures Valid() && InOrder(tree) == Before(c) + [node] + After(c)
    {
      ghost var h0, root0 := h, root;
      RepPlug(h, c, Leaf, root, NULL);
      h := h[node := RbNode(parent, false, NULL, NULL)];
      if parent != NULL {
        h := SetChild(h, parent, side, node);
      } else {
        root := node;
      }
      LinkedInMemory(h0, h, root0, root, c, node);
      tree := Plug(c, Node(node, false, Leaf, Leaf));
      InsertColor(node, c);
    }

    /** The leftmost node below n. */
    method Leftmost(n0: Ptr, ghost t: Tree, ghost p: Ptr) returns (n: Ptr)
      requires t.Node? && n0 == t.id && Rep(h, t, p)
      ensures InOrder(t) != [] && n == InOrder(t)[0]
    {
      n := n0;
      ghost var u, q := t, p;
      while h[n].left != NULL
        invariant u.Node? && n == u.id && Rep(h, u, q) && InOrder(u) != [] && InOrder(u)[0] == InOrder(t)[0] && InOrder(t) != []
        decreases u
      {
        n := h[n].left;
        u, q := u.left, u.id;
        assert u.Node?;
      }
    }

    method Rightmost(n0: Ptr, ghost t: Tree, ghost p: Ptr) returns (n: Ptr)
      requires t.Node? && n0 == t.id && Rep(h, t, p)
      ensures InOrder(t) != [] && n == InOrder(t)[|InOrder(t)| - 1]
    {
      n := n0;
      ghost var u, q := t, p;
      while h[n].right != NULL
        invariant u.Node? && n == u.id && Rep(h, u, q) && InOrder(u) != []
        invariant InOrder(t) != [] && InOrder(u)[|InOrder(u)| - 1] == InOrder(t)[|InOrder(t)| - 1]
        decreases u
      {
        n := h[n].right;
        u, q := u.right, u.id;
        assert u.Node?;
      }
    }

    /** rb_first */
    method First() returns (n: Ptr)
      requires Linked()
      ensures n == Head(InOrder(tree))
    {
      n := root;
      if n == NULL {
        return NULL;
      }
      n := Leftmost(n, tree, NULL);
    }

    /** rb_last */
    method Last() returns (n: Ptr)
      requires Linked()
      ensures n == if InOrder(tree) == [] then NULL else InOrder(tree)[|InOrder(tree)| - 1]
    {
      n := root;
      if n == NULL {
        return NULL;
      }
      n := Rightmost(n, tree, NULL);
    }

    /** rb_next */
    method Next(node0: Ptr) returns (next: Ptr)
      requires Linked() && node0 in h && (node0 in Ids(tree) || IsEmptyNode(h[node0], node0))
      ensures node0 in Ids(tree) ==> Follows(InOrder(tree), node0, next)
      ensures node0 !in Ids(tree) ==> next == NULL
    {
      if IsEmptyNode(h[node0], node0) {
        LinkedNotEmpty(h, tree, node0);
        return NULL;
      }
      ghost var c, t := Locate(Top, tree, node0);
      RepPlug(h, c, t, root, NULL);
      NextShape(c, t);
      if h[node0].right != NULL {
        next := Leftmost(h[node0].right, t.right, node0);
        return;
      }
      var node := node0;
      var parent := h[node].parent;
      ghost var after := After(c);
      while parent != NULL && node == h[parent].right
        invariant RepCtx(h, c, node, root, NULL) && parent == Parent(c, NULL) && After(c) == after
        invariant node != NULL && node !in CtxIds(c) && CtxDistinct(c)
        decreases c
      {
        node := parent;
        parent := h[node].parent;
        c := c.up;
      }
      next := parent;
    }

    /** rb_prev */
    method Prev(node0: Ptr) returns (prev: Ptr)
      requires Linked() && node0 in h && (node0 in Ids(tree) || IsEmptyNode(h[node0], node0))
      ensures node0 in Ids(tree) ==> Precedes(InOrder(tree), node0, prev)
      ensures node0 !in Ids(tree) ==> prev == NULL
    {
      if IsEmptyNode(h[node0], node0) {
        LinkedNotEmpty(h, tree, node0);
        return NULL;
      }
      ghost var c, t := Locate(Top, tree, node0);
      RepPlug(h, c, t, root, NULL);
      NextShape(c, t);
      if h[node0].left != NULL {
        prev := Rightmost(h[node0].left, t.left, node0);
        return;
      }
      var node := node0;
      var parent := h[node].parent;
      ghost var before := Before(c);
      while parent != NULL && node == h[parent].left
        invariant RepCtx(h, c, node, root, NULL) && parent == Parent(c, NULL) && Before(c) == before
        invariant node != NULL && node !in CtxIds(c) && CtxDistinct(c)
        decreases c
      {
        node := parent;
        parent := h[node].parent;
        c := c.up;
      }
      prev := parent;
    }

    /** rb_left_deepest_node */
    method LeftDeepest(n0: Ptr, ghost t: Tree, ghost p: Ptr) returns (n: Ptr)
      requires t.Node? && n0 == t.id && Rep(h, t, p)
      ensures n == Head(PostOrder(t))
    {
      n := n0;
      ghost var u, q := t, p;
      while true
        invariant u.Node? && n == u.id && Rep(h, u, q) && Head(PostOrder(u)) == Head(PostOrder(t))
        decreases u
      {
        if h[n].left != NULL {
          n := h[n].left;
          u, q := u.left, u.id;
        } else if h[n].right != NULL {
          n := h[n].right;
          u, q := u.right, u.id;
        } else {
          return;
        }
      }
    }

    /** rb_next_postorder */
    method NextPostorder(node: Ptr) returns (next: Ptr)
      requires Linked() && (node != NULL ==> node in Ids(tree))
      ensures node == NULL ==> next == NULL
      ensures node != NULL ==> Follows(PostOrder(tree), node, next)
    {
      if node == NULL {
        return NULL;
      }
      ghost var c, t := Locate(Top, tree, node);
      RepPlug(h, c, t, root, NULL);
      PostShape(c, t);
      PlugIds(c, t);
      var parent := h[node].parent;
      if parent != NULL && node == h[parent].left && h[parent].right != NULL {
        next := LeftDeepest(h[parent].right, c.sibling, parent);
      } else {
        next := parent;
      }
    }

    /** rb_first_postorder */
    method FirstPostorder() returns (n: Ptr)
      requires Linked()
      ensures n == Head(PostOrder(tree))
    {
      if root == NULL {
        return NULL;
      }
      n := LeftDeepest(root, tree, NULL);
    }
  }

  /** RB_EMPTY_NODE: the packed word holds the node's own address. */
  predicate IsEmptyNode(n: RbNode, x: Ptr) {
    n.parent == x && !n.black
  }

  lemma {:induction false} LinkedNotEmpty(h: Arena, t: Tree, x: Ptr)
    requires Rep(h, t, NULL) && Distinct(t) && x in h && IsEmptyNode(h[x], x)
    ensures x !in Ids(t)
  {
    if x in Ids(t) {
      var c, t' := Locate(Top, t, x);
      RepPlug(h, c, t', Root(t), NULL);
      PlugIds(c, t');
    }
  }

  lemma {:induction false} NextShape(c: Ctx, t: Tree)
    requires t.Node? && Distinct(Plug(c, t))
    ensures Follows(InOrder(Plug(c, t)), t.id, if t.right.Leaf? then Head(After(c)) else Head(InOrder(t.right)))
    ensures Precedes(InOrder(Plug(c, t)), t.id, LastOf(if t.left.Leaf? then Before(c) else InOrder(t.left)))
    ensures t.id !in CtxIds(c) && CtxDistinct(c)
  {
    PlugIds(c, t);
    Neighbours(c, t);
    HeadConcat(InOrder(t.right), After(c));
    HeadConcat(Before(c), InOrder(t.left));
  }

  lemma {:induction false} Neighbours(c: Ctx, t: Tree)
    requires t.Node? && Distinct(Plug(c, t))
    ensures Follows(InOrder(Plug(c, t)), t.id, Head(InOrder(t.right) + After(c)))
    ensures Precedes(InOrder(Plug(c, t)), t.id, LastOf(Before(c) + InOrder(t.left)))
  {
    var a, b := Before(c) + InOrder(t.left), InOrder(t.right) + After(c);
    PlugInOrder(c, t);
    assert InOrder(Plug(c, t)) == a + [t.id] + b;
    DistinctNoDup(Plug(c, t));
    FollowsHead(a, t.id, b);
  }

  lemma {:induction false} HeadConcat(a: seq<Ptr>, b: seq<Ptr>)
    ensures Head(a + b) == if a == [] then Head(b) else Head(a)
    ensures LastOf(a + b) == if b == [] then LastOf(a) else LastOf(b)
  {
  }

  function LastOf(s: seq<Ptr>): Ptr {
    if s == [] then NULL else s[|s| - 1]
  }

  lemma {:induction false} PostShape(c: Ctx, t: Tree)
    requires t.Node? && Distinct(Plug(c, t))
    ensures Follows(PostOrder(Plug(c, t)), t.id, Head(PostAfter(c)))
  {
    var a := PostBefore(c) + PostOrder(t.left) + PostOrder(t.right);
    PlugPostOrder(c, t);
    assert PostOrder(Plug(c, t)) == a + [t.id] + PostAfter(c);
    PostOrderIds(Plug(c, t));
    FollowsHead(a, t.id, PostAfter(c));
  }

  /** The first element where the condition holds, NULL when there is none. */
  function FirstWhere(s: seq<Ptr>, cond: Ptr -> bool): Ptr {
    if s == [] then NULL else if cond(s[0]) then s[0] else FirstWhere(s[1..], cond)
  }

  lemma {:induction false} FirstWhereConcat(a: seq<Ptr>, b: seq<Ptr>, cond: Ptr -> bool)
    requires NULL !in a
    ensures FirstWhere(a + b, cond) == if FirstWhere(a, cond) != NULL then FirstWhere(a, cond) else FirstWhere(b, cond)
    decreases |a|
  {
    if a == [] {
      assert a + b == b;
    } else {
      assert (a + b)[1..] == a[1..] + b;
      FirstWhereConcat(a[1..], b, cond);
    }
  }

  lemma {:induction false} PreOrderNotNull(h: Arena, t: Tree, p: Ptr)
    requires Rep(h, t, p)
    ensures NULL !in PreOrder(t)
  {
    if t.Node? {
      PreOrderNotNull(h, t.left, t.id);
      PreOrderNotNull(h, t.right, t.id);
    }
  }

  /** __rb_preorder_dfs */
  function PreorderDfs(h: Arena, n: Ptr, cond: Ptr -> bool, ghost t: Tree, ghost p: Ptr): (r: Ptr)
    requires t.Node? && n == t.id && Rep(h, t, p)
    ensures r == FirstWhere(PreOrder(t), cond)
    decreases t
  {
    PreOrderNotNull(h, t, p);
    FirstWhereConcat([n], PreOrder(t.left), cond);
    FirstWhereConcat([n] + PreOrder(t.left), PreOrder(t.right), cond);
    if cond(n) then n
    else
      var leftRes := if h[n].left != NULL then PreorderDfs(h, h[n].left, cond, t.left, n) else NULL;
      if leftRes != NULL then leftRes
      else if h[n].right != NULL then PreorderDfs(h, h[n].right, cond, t.right, n)
      else NULL
  }
}
