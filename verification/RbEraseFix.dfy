/** The erase fix-up ____rb_erase_color case by case. */
module RbEraseFix {
  import opened RbTree
  import opened RbLinks

  /** The loop invariant of ____rb_erase_color: t is black (or NULL), not the root, and every path
      through it has one black node less than the others. */
  ghost predicate EraseState(h: Arena, root: Ptr, c: Ctx, t: Tree, n: nat, order: seq<Ptr>) {
    && c.Frame? && IsBlack(t)
    && RepCtx(h, c, Root(t), root, NULL) && Rep(h, t, c.id) && Distinct(Plug(c, t))
    && InOrder(Plug(c, t)) == order
    && NoRedRed(t) && HasBh(t, n) && CtxBh(c, n + 1) && CtxOk(c)
  }

  /** What the loop body reads around t. */
  lemma {:induction false} EraseLinks(h: Arena, root: Ptr, c: Ctx, t: Tree, n: nat, order: seq<Ptr>)
    requires EraseState(h, root, c, t, n, order)
    ensures c.sibling.Node? && c.id in h && c.id != NULL && h[c.id].parent == Parent(c.up, NULL) && h[c.id].black == c.black
    ensures h[c.id].Child(c.side) == Root(t) && h[c.id].Child(!c.side) == c.sibling.id && c.sibling.id != Root(t)
    ensures c.sibling.id in h && c.sibling.id != c.id && c.sibling.id != NULL && h[c.sibling.id].black == c.sibling.black
    ensures h[c.sibling.id].left == Root(c.sibling.left) && h[c.sibling.id].right == Root(c.sibling.right)
    ensures c.sibling.left.Node? ==> NodeIn(h, c.sibling.left)
    ensures c.sibling.right.Node? ==> NodeIn(h, c.sibling.right)
  {
    PlugIds(c, t);
    assert Rep(h, c.sibling, c.id);
    assert Rep(h, c.sibling.left, c.sibling.id) && Rep(h, c.sibling.right, c.sibling.id);
  }

  ghost predicate NodeIn(h: Arena, t: Tree)
    requires t.Node?
  {
    t.id in h && t.id != NULL && h[t.id].black == t.black
  }

  /** The parts of memory around t. */
  lemma {:induction false} EraseReps(h: Arena, root: Ptr, c: Ctx, t: Tree, n: nat, order: seq<Ptr>)
    requires EraseState(h, root, c, t, n, order)
    ensures c.sibling.Node? && Rep(h, c.sibling.left, c.sibling.id) && Rep(h, c.sibling.right, c.sibling.id)
    ensures Rep(h, t, c.id) && RepCtx(h, c.up, c.id, root, NULL)
    ensures c.id !in Ids(t) && c.sibling.id !in Ids(t) && c.id !in CtxIds(c.up) && c.sibling.id !in CtxIds(c.up)
    ensures c.id !in Ids(c.sibling.left) && c.id !in Ids(c.sibling.right)
    ensures c.sibling.id !in Ids(c.sibling.left) && c.sibling.id !in Ids(c.sibling.right)
  {
    EraseLinks(h, root, c, t, n, order);
    PlugIds(c, t);
  }

  lemma {:induction false} RedChildren(t: Tree, e: bool, f: bool)
    requires t.Node? && NoRedRed(t) && !IsBlack(Side(t, e))
    ensures IsBlack(Side(Side(t, e), f))
  {
  }

  /** Case 1: the path after the rotation that gives t a black sibling. */
  ghost function BlackSibling(c: Ctx): Ctx
    requires c.Frame? && c.sibling.Node?
  {
    var s, d := c.sibling, c.side;
    Frame(d, c.id, false, Side(s, d), Frame(d, s.id, true, Side(s, !d), c.up))
  }

  /** Cases 3 and 4: the subtree that takes the parent's place. */
  ghost function Refilled(c: Ctx, t: Tree): Tree
    requires c.Frame? && c.sibling.Node? && (IsBlack(Side(c.sibling, !c.side)) ==> Side(c.sibling, c.side).Node?)
  {
    var s, d, e := c.sibling, c.side, !c.side;
    if !IsBlack(Side(s, e)) then
      Mk(e, s.id, c.black, Side(s, e).(black := true), Mk(e, c.id, true, Side(s, d), t))
    else
      var i := Side(s, d);
      Mk(e, i.id, c.black, Mk(e, s.id, true, Side(s, e), Side(i, e)), Mk(e, c.id, true, Side(i, d), t))
  }

  lemma {:induction false} BlackSiblingShape(c: Ctx, t: Tree, n: nat)
    requires c.Frame? && c.sibling.Node? && !c.sibling.black && CtxBh(c, n + 1) && CtxOk(c)
    ensures CtxBh(BlackSibling(c), n + 1) && CtxOk(BlackSibling(c)) && c.black
    ensures Side(c.sibling, c.side).Node? && IsBlack(Side(c.sibling, c.side))
    ensures InOrder(Plug(BlackSibling(c), t)) == InOrder(Plug(c, t))
    ensures Distinct(Plug(BlackSibling(c), t)) == Distinct(Plug(c, t))
    ensures Plug(BlackSibling(c), t)
         == Plug(c.up, Mk(!c.side, c.sibling.id, true, Side(c.sibling, !c.side), Mk(!c.side, c.id, false, Side(c.sibling, c.side), t)))
  {
    var s, e := c.sibling, !c.side;
    var t' := Mk(e, s.id, true, Side(s, e), Mk(e, c.id, false, Side(s, !e), t));
    RotationOrder(e, c.id, s.id, Side(s, e), Side(s, !e), t, true, false, c.black, s.black);
    PlugSame(c.up, Mk(c.side, c.id, c.black, t, s), t');
  }

  lemma {:induction false} RefilledOrder(c: Ctx, t: Tree)
    requires c.Frame? && c.sibling.Node? && (IsBlack(Side(c.sibling, !c.side)) ==> Side(c.sibling, c.side).Node?)
    ensures InOrder(Plug(c.up, Refilled(c, t))) == InOrder(Plug(c, t))
    ensures Distinct(Plug(c.up, Refilled(c, t))) == Distinct(Plug(c, t))
  {
    var s, d, e := c.sibling, c.side, !c.side;
    if !IsBlack(Side(s, e)) {
      RotationOrder(e, c.id, s.id, Side(s, e), Side(s, d), t, c.black, true, c.black, s.black);
      assert InOrder(Refilled(c, t)) == InOrder(Mk(d, c.id, c.black, t, s));
    } else {
      var i := Side(s, d);
      var m := Mk(e, s.id, true, Side(s, e), Side(i, e));
      RotationOrder(e, c.id, i.id, m, Side(i, d), t, c.black, true, c.black, s.black);
      RotationOrder(d, s.id, i.id, Side(i, d), Side(i, e), Side(s, e), s.black, true, s.black, i.black);
      assert InOrder(Mk(e, i.id, s.black, m, Side(i, d))) == InOrder(s);
      assert InOrder(Refilled(c, t)) == InOrder(Mk(d, c.id, c.black, t, s));
    }
    PlugSame(c.up, Mk(d, c.id, c.black, t, s), Refilled(c, t));
  }

  lemma {:induction false} RefilledRb(c: Ctx, t: Tree, n: nat)
    requires c.Frame? && c.sibling.Node? && c.sibling.black && CtxBh(c, n + 1) && CtxOk(c)
    requires IsBlack(t) && NoRedRed(t) && HasBh(t, n)
    requires !IsBlack(Side(c.sibling, !c.side)) || !IsBlack(Side(c.sibling, c.side))
    ensures IsRb(Plug(c.up, Refilled(c, t)))
  {
    var s, d, e, r := c.sibling, c.side, !c.side, Refilled(c, t);
    assert NoRedRed(s) && HasBh(Side(s, d), n) && HasBh(Side(s, e), n) && NoRedRed(Side(s, d)) && NoRedRed(Side(s, e));
    assert HasBh(Side(r, e), n + 1) && NoRedRed(Side(r, e)) && IsBlack(Side(r, e));
    assert HasBh(Side(r, d), n + 1) && NoRedRed(Side(r, d)) && IsBlack(Side(r, d));
    assert NoRedRed(r) && HasBh(r, if c.black then n + 2 else n + 1);
    PlugRb(c.up, Refilled(c, t), if c.black then n + 2 else n + 1);
  }

  /** Case 2: the parent's subtree after its sibling turned red. */
  ghost function RedSibling(c: Ctx, t: Tree): Tree
    requires c.Frame? && c.sibling.Node?
  {
    Mk(c.side, c.id, true, t, c.sibling.(black := false))
  }

  lemma {:induction false} RedSiblingInMemory(h: Arena, h': Arena, root: Ptr, c: Ctx, t: Tree, n: nat, order: seq<Ptr>)
    requires EraseState(h, root, c, t, n, order) && c.sibling.Node? && c.sibling.id in h && c.id in h
    requires h' == SetParentColor(h, c.sibling.id, c.id, false)[c.id := h[c.id].(black := true)]
    ensures Rep(h', RedSibling(c, t), Parent(c.up, NULL)) && RepCtx(h', c.up, c.id, root, NULL)
  {
    var s := c.sibling;
    EraseLinks(h, root, c, t, n, order);
    EraseReps(h, root, c, t, n, order);
    RepOutside(h, h', {c.id, s.id}, t, c.id);
    RepOutside(h, h', {c.id, s.id}, s.left, s.id);
    RepOutside(h, h', {c.id, s.id}, s.right, s.id);
    RepCtxOutside(h, h', {c.id, s.id}, c.up, c.id, root, NULL);
    RepMk(h', false, s.id, false, s.left, s.right, c.id);
    RepMk(h', c.side, c.id, true, t, s.(black := false), Parent(c.up, NULL));
  }

  lemma {:induction false} RedSiblingShape(c: Ctx, t: Tree, n: nat)
    requires c.Frame? && c.sibling.Node? && c.sibling.black && IsBlack(c.sibling.left) && IsBlack(c.sibling.right)
    requires IsBlack(t) && NoRedRed(t) && HasBh(t, n) && CtxBh(c, n + 1) && CtxOk(c)
    ensures NoRedRed(RedSibling(c, t)) && HasBh(RedSibling(c, t), n + 1) && CtxOk(c.up)
    ensures CtxBh(c.up, if c.black then n + 2 else n + 1)
    ensures InOrder(Plug(c.up, RedSibling(c, t))) == InOrder(Plug(c, t))
    ensures Distinct(Plug(c.up, RedSibling(c, t))) == Distinct(Plug(c, t))
  {
    PlugSame(c.up, Mk(c.side, c.id, c.black, t, c.sibling), RedSibling(c, t));
  }

  /** Case 2 ends the loop below a red parent and at the root; otherwise it moves up. */
  lemma {:induction false} EraseFlip(h: Arena, h': Arena, root: Ptr, c: Ctx, t: Tree, n: nat, order: seq<Ptr>)
    requires EraseState(h, root, c, t, n, order) && c.sibling.Node? && c.sibling.id in h && c.id in h
    requires c.sibling.black && IsBlack(c.sibling.left) && IsBlack(c.sibling.right)
    requires h' == SetParentColor(h, c.sibling.id, c.id, false)[c.id := h[c.id].(black := true)]
    ensures !c.black || c.up.Top? ==> IsRbIn(h', root, Plug(c.up, RedSibling(c, t)), order)
    ensures c.black && c.up.Frame? ==> EraseState(h', root, c.up, RedSibling(c, t), n + 1, order)
  {
    RedSiblingInMemory(h, h', root, c, t, n, order);
    RedSiblingShape(c, t, n);
    if !c.black || c.up.Top? {
      RepPlug(h', c.up, RedSibling(c, t), root, NULL);
      PlugRb(c.up, RedSibling(c, t), n + 1);
    }
  }

  lemma {:induction false} EraseRotated(h: Arena, root: Ptr, c: Ctx, t: Tree, n: nat)
    requires c.Frame? && c.sibling.Node? && c.sibling.black && CtxBh(c, n + 1) && CtxOk(c)
    requires IsBlack(t) && NoRedRed(t) && HasBh(t, n) && Distinct(Plug(c, t))
    requires !IsBlack(Side(c.sibling, !c.side)) || !IsBlack(Side(c.sibling, c.side))
    requires Rep(h, Refilled(c, t), Parent(c.up, NULL)) && RepCtx(h, c.up, Root(Refilled(c, t)), root, NULL)
    ensures IsRbIn(h, root, Plug(c.up, Refilled(c, t)), InOrder(Plug(c, t)))
  {
    RefilledRb(c, t, n);
    RefilledOrder(c, t);
    RepPlug(h, c.up, Refilled(c, t), root, NULL);
  }

  /** What case 4 needs: y, the node that will replace x, holds `mid` on x's side and `near` outside.
      The parent word of `near` and of y may be stale. */
  ghost predicate Refillable(h: Arena, root: Ptr, up: Ctx, x: Ptr, xBlack: bool, d: bool, y: Ptr, near: Tree, mid: Tree, t: Tree) {
    && x in h && x != NULL && h[x].parent == Parent(up, NULL) && h[x].black == xBlack && h[x].Child(d) == Root(t)
    && y in h && y != NULL && h[y].Child(d) == Root(mid) && h[y].Child(!d) == Root(near)
    && Rep(h, t, x) && Rep(h, mid, y) && RepCtx(h, up, x, root, NULL)
    && near.Node? && near.id in h && near.id != NULL && h[near.id].left == Root(near.left) && h[near.id].right == Root(near.right)
    && Rep(h, near.left, near.id) && Rep(h, near.right, near.id)
    && Apart(up, x, y, near, mid, t)
  }

  lemma {:induction false} RefillApart(c: Ctx, t: Tree)
    requires c.Frame? && c.sibling.Node? && (IsBlack(Side(c.sibling, !c.side)) ==> Side(c.sibling, c.side).Node?)
    requires Distinct(Plug(c, t))
    ensures !IsBlack(Side(c.sibling, !c.side)) ==> Apart(c.up, c.id, c.sibling.id, Side(c.sibling, !c.side), Side(c.sibling, c.side), t)
    ensures IsBlack(Side(c.sibling, !c.side)) ==>
      var s, d, e := c.sibling, c.side, !c.side;
      var i := Side(s, d);
      Apart(c.up, c.id, i.id, Mk(e, s.id, true, Side(s, e), Side(i, e)), Side(i, d), t)
  {
    var s, d, e := c.sibling, c.side, !c.side;
    RefilledOrder(c, t);
    if !IsBlack(Side(s, e)) {
      PartsApart(c.up, e, c.id, s.id, c.black, true, Side(s, e).(black := true), Side(s, d), t);
    } else {
      var i := Side(s, d);
      PartsApart(c.up, e, c.id, i.id, c.black, true, Mk(e, s.id, true, Side(s, e), Side(i, e)), Side(i, d), t);
    }
  }

  lemma {:induction false} OuterNephewReady(h: Arena, root: Ptr, c: Ctx, t: Tree, n: nat, order: seq<Ptr>)
    requires EraseState(h, root, c, t, n, order) && c.sibling.Node? && !IsBlack(Side(c.sibling, !c.side))
    ensures Refillable(h, root, c.up, c.id, c.black, c.side, c.sibling.id, Side(c.sibling, !c.side), Side(c.sibling, c.side), t)
  {
    EraseLinks(h, root, c, t, n, order);
    EraseReps(h, root, c, t, n, order);
    RefillApart(c, t);
  }

  lemma {:induction false} InnerNephewReady(h0: Arena, h1: Arena, root: Ptr, c: Ctx, t: Tree, n: nat, order: seq<Ptr>)
    requires EraseState(h0, root, c, t, n, order) && c.sibling.Node? && IsBlack(Side(c.sibling, !c.side))
    requires c.id in h0 && c.sibling.id in h0
    requires var s, d, i := c.sibling, c.side, Side(c.sibling, c.side);
             && i.Node? && i.id in h0
             && s.id in h1 && h1[s.id] == h0[s.id].SetChild(d, Root(Side(i, !d)))
             && i.id in h1 && h1[i.id] == h0[i.id].SetChild(!d, s.id)
             && Unchanged(h0, h1, {s.id, i.id} + RootSet(Side(i, !d)))
             && Rep(h1, Side(i, !d), s.id)
    ensures c.id in h1
    ensures var s, d, e := c.sibling, c.side, !c.side;
            var i := Side(s, d);
            Refillable(SetChild(h1, c.id, !d, i.id), root, c.up, c.id, c.black, d, i.id,
                       Mk(e, s.id, true, Side(s, e), Side(i, e)), Side(i, d), t)
  {
    var s, d, e := c.sibling, c.side, !c.side;
    var i := Side(s, d);
    EraseLinks(h0, root, c, t, n, order);
    EraseReps(h0, root, c, t, n, order);
    RefillApart(c, t);
    var changed := {c.id, s.id, i.id} + RootSet(Side(i, e));
    InnerChanged(c.up, c.id, s.id, i.id, Side(s, e), Side(i, e), Side(i, d), t, e);
    assert c.id !in RootSet(Side(i, e));
    var h := SetChild(h1, c.id, !d, i.id);
    RepOutside(h1, h, {c.id}, Side(i, e), s.id);
    assert Unchanged(h0, h, changed);
    RepOutside(h0, h, changed, t, c.id);
    RepOutside(h0, h, changed, Side(i, d), i.id);
    RepOutside(h0, h, changed, Side(s, e), s.id);
    RepCtxOutside(h0, h, changed, c.up, c.id, root, NULL);
  }

  lemma {:induction false} InnerChanged(up: Ctx, x: Ptr, s: Ptr, i: Ptr, outer: Tree, inner: Tree, mid: Tree, t: Tree, e: bool)
    requires Apart(up, x, i, Mk(e, s, true, outer, inner), mid, t)
    ensures var changed := {x, s, i} + RootSet(inner);
            changed !! Ids(t) && changed !! Ids(mid) && changed !! Ids(outer) && changed !! CtxIds(up)
    ensures s != i && s != x && x != i && s !in Ids(inner) && i !in Ids(inner) && x !in Ids(inner) && RootOnce(inner)
  {
    MkIds(e, s, true, outer, inner);
    assert RootSet(inner) <= Ids(inner);
    InnerSets(CtxIds(up), x, s, i, Ids(outer), Ids(inner), Ids(mid), Ids(t), Ids(Mk(e, s, true, outer, inner)), RootSet(inner));
  }

  lemma {:induction false} InnerSets(u: set<Ptr>, x: Ptr, s: Ptr, i: Ptr, o: set<Ptr>, n: set<Ptr>, m: set<Ptr>, t: set<Ptr>, near: set<Ptr>, r: set<Ptr>)
    requires near == {s} + o + n && s !in o && s !in n && o !! n && r <= n
    requires x != i && x !in u && i !in u && x !in near && x !in m && x !in t && i !in near && i !in m && i !in t
    requires near !! m && near !! t && near !! u
    ensures {x, s, i} + r !! t && {x, s, i} + r !! m && {x, s, i} + r !! o && {x, s, i} + r !! u
    ensures s != i && s != x && i !in n && x !in n
  {
    assert s in near && o <= near && n <= near;
  }

  lemma {:induction false} OuterNephewPainted(h0: Arena, h: Arena, root: Ptr, up: Ctx, x: Ptr, d: bool, y: Ptr, near: Tree, mid: Tree, t: Tree)
    requires x in h0 && Refillable(h0, root, up, x, h0[x].black, d, y, near, mid, t)
    requires near.id in h0 && h == SetParentColor(h0, near.id, y, true)
    ensures x in h && y in h && h[x] == h0[x] && h[y] == h0[y]
    ensures Rep(h, near.(black := true), y) && Rep(h, mid, y) && Rep(h, t, x) && RepCtx(h, up, x, root, NULL)
    ensures Apart(up, x, y, near.(black := true), mid, t)
  {
    assert near.id in Ids(near) && near.id !in Ids(near.left) && near.id !in Ids(near.right);
    RepOutside(h0, h, {near.id}, near.left, near.id);
    RepOutside(h0, h, {near.id}, near.right, near.id);
    RepOutside(h0, h, {near.id}, mid, y);
    RepOutside(h0, h, {near.id}, t, x);
    RepCtxOutside(h0, h, {near.id}, up, x, root, NULL);
  }
}
