/** The accessors of kernel/include/rbtree_augmented.h and what a rotation does to a tree in memory. */
module RbLinks {
  import opened RbTree

  // ----- the field accessors of rbtree_augmented.h -----

  function SetParentColor(h: Arena, x: Ptr, p: Ptr, black: bool): Arena
    requires x in h
  {
    h[x := h[x].(parent := p, black := black)]
  }

  function SetParent(h: Arena, x: Ptr, p: Ptr): Arena
    requires x in h
  {
    h[x := h[x].(parent := p)]
  }

  function SetChild(h: Arena, x: Ptr, side: bool, p: Ptr): Arena
    requires x in h
  {
    h[x := h[x].SetChild(side, p)]
  }

  /** rb_red_parent reads the packed word as a pointer, which needs a zero colour bit. */
  function RedParent(h: Arena, x: Ptr): Ptr
    requires x in h && !h[x].black
  {
    h[x].parent
  }

  /** Replacing the tree below a link only rewrites the node above it. */
  lemma {:induction false} CtxChangeChild(h: Arena, c: Ctx, old_: Ptr, new_: Ptr, root: Ptr, above: Ptr)
    requires RepCtx(h, c, old_, root, above) && old_ != NULL && old_ !in CtxIds(c) && CtxDistinct(c)
    ensures c.Frame? ==> RepCtx(SetChild(h, c.id, h[c.id].left != old_, new_), c, new_, root, above)
  {
    if c.Frame? {
      var h' := SetChild(h, c.id, h[c.id].left != old_, new_);
      RepFrame(h, h', c.sibling, c.id);
      RepCtxFrame(h, h', c.up, c.id, root, above);
    }
  }

  /** A red-black tree in memory. */
  ghost predicate IsRbIn(h: Arena, root: Ptr, t: Tree, order: seq<Ptr>) {
    Rep(h, t, NULL) && root == Root(t) && Distinct(t) && IsRb(t) && InOrder(t) == order
  }

  /** A rotation keeps the order, whatever the colours. */
  lemma {:induction false} RotationOrder(e: bool, x: Ptr, y: Ptr, near: Tree, mid: Tree, far: Tree, b: bool, b': bool, g: bool, g': bool)
    ensures InOrder(Mk(e, y, b, near, Mk(e, x, b', mid, far))) == InOrder(Mk(e, x, g, Mk(e, y, g', near, mid), far))
  {
    var n, m, f := InOrder(near), InOrder(mid), InOrder(far);
    if e {
      assert (f + [x] + m) + [y] + n == f + [x] + (m + [y] + n);
    } else {
      assert n + [y] + (m + [x] + f) == (n + [y] + m) + [x] + f;
    }
  }

  ghost function RootSet(t: Tree): set<Ptr> {
    if t.Leaf? then {} else {t.id}
  }

  ghost predicate RootOnce(t: Tree) {
    t.Node? ==> t.id !in Ids(t.left) && t.id !in Ids(t.right)
  }

  /** A subtree may be hung under another parent. */
  lemma {:induction false} MovedRoot(h: Arena, h': Arena, t: Tree, p: Ptr, p': Ptr)
    requires Rep(h, t, p) && RootOnce(t)
    requires Agree(h, h', Ids(t) - RootSet(t))
    requires t.Node? ==> t.id in h' && h'[t.id] == h[t.id].(parent := p')
    ensures Rep(h', t, p')
  {
    if t.Node? {
      RepFrame(h, h', t.left, t.id);
      RepFrame(h, h', t.right, t.id);
    }
  }

  /** The parts of a rotation share no node. */
  ghost predicate Apart(up: Ctx, x: Ptr, y: Ptr, near: Tree, mid: Tree, far: Tree) {
    && x != y && x !in CtxIds(up) && y !in CtxIds(up)
    && x !in Ids(near) && x !in Ids(mid) && x !in Ids(far) && y !in Ids(near) && y !in Ids(mid) && y !in Ids(far)
    && Ids(near) !! Ids(mid) && Ids(near) !! Ids(far) && Ids(mid) !! Ids(far)
    && Ids(near) !! CtxIds(up) && Ids(mid) !! CtxIds(up) && Ids(far) !! CtxIds(up)
    && Distinct(near) && Distinct(mid) && Distinct(far) && CtxDistinct(up)
  }

  lemma {:induction false} PartsApart(up: Ctx, e: bool, x: Ptr, y: Ptr, b: bool, b': bool, near: Tree, mid: Tree, far: Tree)
    requires Distinct(Plug(up, Mk(e, y, b, near, Mk(e, x, b', mid, far))))
    ensures Apart(up, x, y, near, mid, far)
  {
    var m := Mk(e, x, b', mid, far);
    MkIds(e, x, b', mid, far);
    MkIds(e, y, b, near, m);
    PlugIds(up, Mk(e, y, b, near, m));
  }

  lemma {:induction false} MkIds(e: bool, id: Ptr, b: bool, near: Tree, far: Tree)
    ensures Ids(Mk(e, id, b, near, far)) == {id} + Ids(near) + Ids(far)
    ensures Distinct(Mk(e, id, b, near, far))
       <==> id !in Ids(near) && id !in Ids(far) && Ids(near) !! Ids(far) && Distinct(near) && Distinct(far)
  {
  }

  lemma {:induction false} ApartChanged(up: Ctx, x: Ptr, y: Ptr, near: Tree, mid: Tree, far: Tree)
    requires Apart(up, x, y, near, mid, far)
    ensures {x, y} + RootSet(mid) !! Ids(near) && {x, y} + RootSet(mid) !! Ids(far) && {x, y} + RootSet(mid) !! CtxIds(up)
    ensures RootOnce(mid)
  {
  }

  lemma {:induction false} ApartIds(up: Ctx, e: bool, x: Ptr, y: Ptr, b: bool, b': bool, near: Tree, mid: Tree, far: Tree)
    requires Apart(up, x, y, near, mid, far)
    ensures Ids(Mk(e, y, b, near, Mk(e, x, b', mid, far))) !! CtxIds(up)
  {
    MkIds(e, x, b', mid, far);
    MkIds(e, y, b, near, Mk(e, x, b', mid, far));
  }

  lemma {:induction false} RepMk(h: Arena, e: bool, id: Ptr, b: bool, near: Tree, far: Tree, p: Ptr)
    requires Rep(h, near, id) && Rep(h, far, id) && id != NULL && id in h
    requires h[id] == RbNode(p, b, NULL, NULL).SetChild(e, Root(near)).SetChild(!e, Root(far))
    ensures Rep(h, Mk(e, id, b, near, far), p)
  {
  }

  /** Tree t takes the place of x below the path up. */
  lemma {:induction false} TakePlace(h: Arena, h': Arena, root: Ptr, root': Ptr, up: Ctx, t: Tree, x: Ptr)
    requires RepCtx(h, up, x, root, NULL) && Rep(h, t, Parent(up, NULL)) && CtxDistinct(up) && Ids(t) !! CtxIds(up)
    requires x != NULL && x !in CtxIds(up)
    requires up.Top? ==> h' == h && root' == Root(t)
    requires up.Frame? ==> up.id in h && root' == root && h' == SetChild(h, up.id, h[up.id].left != x, Root(t))
    ensures RepCtx(h', up, Root(t), root', NULL) && Rep(h', t, Parent(up, NULL))
  {
    CtxChangeChild(h, up, x, Root(t), root, NULL);
    RepFrame(h, h', t, Parent(up, NULL));
  }

  /** What a rotation leaves in memory, before the link above it is changed. */
  lemma {:induction false} RotatedInMemory(h: Arena, h1: Arena, x: Ptr, y: Ptr, e: bool, yBlack: bool, xBlack: bool,
                        up: Ctx, near: Tree, mid: Tree, far: Tree, root: Ptr)
    requires x != NULL && y != NULL
    requires Rep(h, near, y) && Rep(h1, mid, x) && Rep(h, far, x) && RepCtx(h, up, x, root, NULL)
    requires Apart(up, x, y, near, mid, far)
    requires x in h1 && h1[x] == RbNode(y, xBlack, NULL, NULL).SetChild(e, Root(mid)).SetChild(!e, Root(far))
    requires y in h1 && h1[y] == RbNode(Parent(up, NULL), yBlack, NULL, NULL).SetChild(e, Root(near)).SetChild(!e, x)
    requires Unchanged(h, h1, {x, y} + RootSet(mid))
    ensures Rep(h1, Mk(e, y, yBlack, near, Mk(e, x, xBlack, mid, far)), Parent(up, NULL))
    ensures RepCtx(h1, up, x, root, NULL)
  {
    var changed := {x, y} + RootSet(mid);
    ApartChanged(up, x, y, near, mid, far);
    RepOutside(h, h1, changed, near, y);
    RepOutside(h, h1, changed, far, x);
    RepCtxOutside(h, h1, changed, up, x, root, NULL);
    RepMk(h1, e, x, xBlack, mid, far, y);
    RepMk(h1, e, y, yBlack, near, Mk(e, x, xBlack, mid, far), Parent(up, NULL));
  }

  lemma {:induction false} RotateHalf(h0: Arena, h: Arena, root: Ptr, x: Ptr, y: Ptr, e: bool, xBlack: bool,
                   up: Ctx, near: Tree, mid: Tree, far: Tree) returns (h1: Arena)
    requires x != NULL && y != NULL && x in h0 && y in h0
    requires h0[x].parent == Parent(up, NULL) && h0[x].Child(!e) == Root(far) && Rep(h0, far, x)
    requires h0[y].Child(e) == Root(near) && Rep(h0, near, y)
    requires RepCtx(h0, up, x, root, NULL)
    requires Apart(up, x, y, near, mid, far)
    requires x in h && h[x] == h0[x].SetChild(e, Root(mid))
    requires y in h && h[y] == h0[y].SetChild(!e, x)
    requires Unchanged(h0, h, {x, y} + RootSet(mid)) && Rep(h, mid, x)
    ensures h1 == SetParentColor(SetParentColor(h, y, h[x].parent, h[x].black), x, y, xBlack)
    ensures Rep(h1, Mk(e, y, h0[x].black, near, Mk(e, x, xBlack, mid, far)), Parent(up, NULL))
    ensures RepCtx(h1, up, x, root, NULL)
    ensures Ids(Mk(e, y, h0[x].black, near, Mk(e, x, xBlack, mid, far))) !! CtxIds(up)
  {
    ApartIds(up, e, x, y, h0[x].black, xBlack, near, mid, far);
    h1 := SetParentColor(SetParentColor(h, y, h[x].parent, h[x].black), x, y, xBlack);
    RepFrame(h, h1, mid, x);
    RotatedInMemory(h0, h1, x, y, e, h0[x].black, xBlack, up, near, mid, far, root);
  }
}
