/** The insertion fix-up __rb_insert case by case: shapes, order, red-black properties and memory. */
module RbInsertFix {
  import opened RbTree
  import opened RbLinks

  // ----- shapes of the insertion fix-up -----

  /** Below a red parent and a black grandparent, seen from the new red node. */
  ghost predicate RedParentCtx(c: Ctx) {
    c.Frame? && !c.black && c.up.Frame? && c.up.black
  }

  /** Case 1: the grandparent after the colour flip. */
  ghost function Flipped(c: Ctx, t: Tree): Tree
    requires RedParentCtx(c) && c.up.sibling.Node?
  {
    Mk(c.up.side, c.up.id, false, Mk(c.side, c.id, true, t, c.sibling), c.up.sibling.(black := true))
  }

  /** Cases 2 and 3: the subtree that takes the grandparent's place. */
  ghost function Rotated(c: Ctx, t: Tree): Tree
    requires RedParentCtx(c) && t.Node?
  {
    var d := c.up.side;
    if c.side == d then
      Mk(d, c.id, true, t, Mk(d, c.up.id, false, c.sibling, c.up.sibling))
    else
      Mk(d, t.id, true, Mk(d, c.id, false, c.sibling, Side(t, d)), Mk(d, c.up.id, false, Side(t, !d), c.up.sibling))
  }

  /** The grandparent's subtree before the fix-up. */
  ghost function Violating(c: Ctx, t: Tree): Tree
    requires RedParentCtx(c)
  {
    Mk(c.up.side, c.up.id, true, Mk(c.side, c.id, false, t, c.sibling), c.up.sibling)
  }

  lemma {:induction false} RotatedOrder(c: Ctx, t: Tree)
    requires RedParentCtx(c) && t.Node?
    ensures InOrder(Rotated(c, t)) == InOrder(Violating(c, t))
  {
    var d := c.up.side;
    if c.side == d {
      RotationOrder(d, c.up.id, c.id, t, c.sibling, c.up.sibling, true, false, true, false);
    } else {
      var near, far := Side(t, d), Side(t, !d);
      var m := Mk(d, c.id, false, c.sibling, near);
      RotationOrder(d, c.up.id, t.id, m, far, c.up.sibling, true, false, true, false);
      RotationOrder(!d, c.id, t.id, far, near, c.sibling, false, false, false, t.black);
      assert InOrder(Mk(d, t.id, false, m, far)) == InOrder(Mk(c.side, c.id, false, t, c.sibling));
    }
  }

  lemma {:induction false} FlippedRb(c: Ctx, t: Tree, n: nat)
    requires RedParentCtx(c) && t.Node? && !t.black && c.up.sibling.Node? && !c.up.sibling.black
    requires CtxOk(c) && CtxBh(c, n) && NoRedRed(t) && HasBh(t, n)
    ensures NoRedRed(Flipped(c, t)) && HasBh(Flipped(c, t), n + 1)
    ensures CtxOk(c.up.up) && CtxBh(c.up.up, n + 1)
  {
  }

  lemma {:induction false} RotatedRb(c: Ctx, t: Tree, n: nat)
    requires RedParentCtx(c) && t.Node? && !t.black && IsBlack(c.up.sibling)
    requires CtxOk(c) && CtxBh(c, n) && NoRedRed(t) && HasBh(t, n)
    ensures IsRb(Plug(c.up.up, Rotated(c, t)))
  {
    PlugRb(c.up.up, Rotated(c, t), n + 1);
  }

  // ----- the same steps in memory -----

  lemma {:induction false} FlipInMemory(h: Arena, h': Arena, c: Ctx, t: Tree, root: Ptr)
    requires RepCtx(h, c, Root(t), root, NULL) && Rep(h, t, Parent(c, NULL)) && Distinct(Plug(c, t))
    requires RedParentCtx(c) && c.up.sibling.Node?
    requires c.id in h && c.up.id in h && c.up.sibling.id in h
    requires h' == SetParentColor(SetParentColor(SetParentColor(h, c.up.sibling.id, c.up.id, true), c.id, c.up.id, true),
                                  c.up.id, h[c.up.id].parent, false)
    ensures RepCtx(h', c.up.up, c.up.id, root, NULL) && Rep(h', Flipped(c, t), Parent(c.up.up, NULL))
  {
    var u := c.up.sibling;
    PlugIds(c, t);
    assert Rep(h', t, c.id) by { RepFrame(h, h', t, c.id); }
    assert Rep(h', c.sibling, c.id) by { RepFrame(h, h', c.sibling, c.id); }
    assert Rep(h', u.(black := true), c.up.id) by {
      RepFrame(h, h', u.left, u.id);
      RepFrame(h, h', u.right, u.id);
    }
    assert RepCtx(h', c.up.up, c.up.id, root, NULL) by { RepCtxFrame(h, h', c.up.up, c.up.id, root, NULL); }
    assert Rep(h', Mk(c.side, c.id, true, t, c.sibling), c.up.id);
  }

  /** The loop invariant of __rb_insert: t hangs red below the path c, and nothing but the edge
      between the two may break a red-black property. */
  ghost predicate InsertState(h: Arena, root: Ptr, c: Ctx, t: Tree, n: nat, order: seq<Ptr>) {
    && t.Node? && !t.black
    && RepCtx(h, c, t.id, root, NULL) && Rep(h, t, Parent(c, NULL)) && Distinct(Plug(c, t))
    && InOrder(Plug(c, t)) == order
    && NoRedRed(t) && HasBh(t, n) && CtxBh(c, n) && CtxOk(c)
  }

  lemma {:induction false} InsertAtRoot(h: Arena, root: Ptr, t: Tree, n: nat, order: seq<Ptr>)
    requires InsertState(h, root, Top, t, n, order)
    requires t.id in h
    ensures IsRbIn(SetParentColor(h, t.id, NULL, true), root, t.(black := true), order)
  {
    var h' := SetParentColor(h, t.id, NULL, true);
    RepFrame(h, h', t.left, t.id);
    RepFrame(h, h', t.right, t.id);
    assert HasBh(t.(black := true), n + 1);
  }

  lemma {:induction false} InsertBelowBlack(h: Arena, root: Ptr, c: Ctx, t: Tree, n: nat, order: seq<Ptr>)
    requires InsertState(h, root, c, t, n, order) && c.Frame? && c.black
    ensures IsRbIn(h, root, Plug(c, t), order)
  {
    RepPlug(h, c, t, root, NULL);
    PlugRb(c, t, n);
  }

  lemma {:induction false} InsertFlip(h: Arena, h': Arena, root: Ptr, c: Ctx, t: Tree, n: nat, order: seq<Ptr>)
    requires InsertState(h, root, c, t, n, order) && RedParentCtx(c)
    requires c.up.sibling.Node? && !c.up.sibling.black
    requires c.id in h && c.up.id in h && c.up.sibling.id in h
    requires h' == SetParentColor(SetParentColor(SetParentColor(h, c.up.sibling.id, c.up.id, true), c.id, c.up.id, true),
                                  c.up.id, h[c.up.id].parent, false)
    ensures InsertState(h', root, c.up.up, Flipped(c, t), n + 1, order)
  {
    FlipInMemory(h, h', c, t, root);
    FlippedRb(c, t, n);
    assert Plug(c, t) == Plug(c.up.up, Violating(c, t));
    PlugSame(c.up.up, Violating(c, t), Flipped(c, t));
  }

  lemma {:induction false} InsertRotated(h: Arena, root: Ptr, c: Ctx, t: Tree, n: nat)
    requires RedParentCtx(c) && t.Node? && !t.black && IsBlack(c.up.sibling)
    requires CtxOk(c) && CtxBh(c, n) && NoRedRed(t) && HasBh(t, n) && Distinct(Plug(c, t))
    requires Rep(h, Rotated(c, t), Parent(c.up.up, NULL)) && RepCtx(h, c.up.up, Root(Rotated(c, t)), root, NULL)
    ensures IsRbIn(h, root, Plug(c.up.up, Rotated(c, t)), InOrder(Plug(c, t)))
  {
    RotatedRb(c, t, n);
    RotatedOrder(c, t);
    assert Plug(c, t) == Plug(c.up.up, Violating(c, t));
    PlugSame(c.up.up, Violating(c, t), Rotated(c, t));
    RepPlug(h, c.up.up, Rotated(c, t), root, NULL);
  }

  /** What the loop body reads around a node whose parent is red. */
  lemma {:induction false} InsertLinks(h: Arena, root: Ptr, c: Ctx, t: Tree)
    requires t.Node? && RepCtx(h, c, t.id, root, NULL) && Rep(h, t, Parent(c, NULL)) && Distinct(Plug(c, t))
    requires c.Frame? && !c.black && CtxOk(c)
    ensures RedParentCtx(c)
    ensures c.id in h && h[c.id].parent == c.up.id && c.up.id in h && h[c.up.id].Child(c.up.side) == c.id
    ensures (c.id == h[c.up.id].right) == c.up.side
    ensures h[c.up.id].Child(!c.up.side) == Root(c.up.sibling) && c.up.id != c.id && c.up.id != NULL && c.id != NULL
    ensures c.up.sibling.Node? ==> c.up.sibling.id in h && h[c.up.sibling.id].black == c.up.sibling.black
    ensures c.up.sibling.Node? ==> c.up.sibling.id !in {NULL, c.id, c.up.id}
    ensures h[c.id].Child(c.side) == t.id && h[c.id].Child(!c.side) == Root(c.sibling) && Root(c.sibling) != t.id
    ensures t.id in h && t.id != c.id && t.id != c.up.id
    ensures Rep(h, c.sibling, c.id) && RepCtx(h, c.up, c.id, root, NULL)
    ensures h[c.up.id].parent == Parent(c.up.up, NULL) && h[c.up.id].black
    ensures Rep(h, c.up.sibling, c.up.id) && RepCtx(h, c.up.up, c.up.id, root, NULL)
  {
    PlugIds(c, t);
  }
}
