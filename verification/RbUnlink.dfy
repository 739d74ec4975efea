/** Linking a new node and taking a node out of the tree (__rb_erase_augmented), before any recolouring. */
module RbUnlink {
  import opened Seqs
  import opened RbTree
  import opened RbLinks

  /** A node with one child at most: the child takes its colour. */
  lemma {:induction false} SpliceShape(c: Ctx, t: Tree, s: Tree)
    requires t.Node? && IsRb(Plug(c, t)) && ((t.left == Leaf && s == t.right) || (t.right == Leaf && s == t.left))
    ensures s.Node? ==> t.black && IsRb(Plug(c, s.(black := true)))
    ensures s.Leaf? && (!t.black || c.Top?) ==> IsRb(Plug(c, Leaf))
    ensures s.Leaf? && t.black ==> CtxBh(c, 1)
    ensures CtxOk(c)
  {
    var n := RbPlug(c, t);
    if s.Node? {
      assert HasBh(s, 0) && !s.black;
      PlugRb(c, s.(black := true), 1);
    } else if !t.black || c.Top? {
      PlugRb(c, Leaf, 0);
    }
  }

  lemma {:induction false} WithoutNoDup(a: seq<Ptr>, x: Ptr, b: seq<Ptr>)
    requires NoDup(a + [x] + b)
    ensures NoDup(a + b) && x !in a
  {
    NoDupMiddle(a, x, b);
  }

  /** What is left of the order once the root of t is taken out below c. */
  lemma {:induction false} Remaining(c: Ctx, t: Tree)
    requires t.Node? && Distinct(Plug(c, t))
    ensures Without(InOrder(Plug(c, t)), t.id) == (Before(c) + InOrder(t.left)) + (InOrder(t.right) + After(c))
    ensures NoDup(Without(InOrder(Plug(c, t)), t.id))
  {
    var a, b := Before(c) + InOrder(t.left), InOrder(t.right) + After(c);
    PlugInOrder(c, t);
    assert InOrder(Plug(c, t)) == a + [t.id] + b;
    DistinctNoDup(Plug(c, t));
    WithoutNoDup(a, t.id, b);
    WithoutMiddle(a, t.id, b);
  }

  lemma {:induction false} SpliceOrder(c: Ctx, t: Tree, s: Tree, s': Tree)
    requires t.Node? && Distinct(Plug(c, t)) && ((t.left == Leaf && s == t.right) || (t.right == Leaf && s == t.left))
    requires InOrder(s) == InOrder(s')
    ensures InOrder(Plug(c, s')) == Without(InOrder(Plug(c, t)), t.id) && Distinct(Plug(c, s'))
  {
    PlugInOrder(c, s');
    EmptyMiddle(Before(c), InOrder(s'), After(c));
    SameRemaining(c, t, Plug(c, s'));
  }

  lemma {:induction false} EmptyMiddle(a: seq<Ptr>, m: seq<Ptr>, b: seq<Ptr>)
    ensures a + m + b == (a + []) + (m + b) == (a + m) + ([] + b)
  {
  }

  lemma {:induction false} SameRemaining(c: Ctx, t: Tree, t': Tree)
    requires t.Node? && Distinct(Plug(c, t))
    requires InOrder(t') == (Before(c) + InOrder(t.left)) + (InOrder(t.right) + After(c))
    ensures InOrder(t') == Without(InOrder(Plug(c, t)), t.id) && Distinct(t')
  {
    Remaining(c, t);
    DistinctNoDup(t');
  }

  /** A path that only goes left. */
  predicate AllLeft(c: Ctx) {
    c.Top? || (!c.side && AllLeft(c.up))
  }

  lemma {:induction false} AllLeftBefore(c: Ctx)
    requires AllLeft(c)
    ensures Before(c) == []
  {
    if c.Frame? {
      AllLeftBefore(c.up);
    }
  }

  lemma {:induction false} AppendRename(lower: Ctx, x: Ptr, y: Ptr, b: bool, l: Tree, c: Ctx, n: nat)
    ensures CtxBh(Append(lower, Frame(true, x, b, l, c)), n) == CtxBh(Append(lower, Frame(true, y, b, l, c)), n)
    ensures CtxOk(Append(lower, Frame(true, x, b, l, c))) == CtxOk(Append(lower, Frame(true, y, b, l, c)))
    decreases lower
  {
    if lower.Frame? {
      AppendRename(lower.up, x, y, b, l, c, if lower.black then n + 1 else n);
    }
  }

  /** The link at which the successor's right subtree ends up. */
  ghost function SuccessorHole(c: Ctx, t: Tree, rel: Ctx, succ: Ptr): Ctx
    requires t.Node?
  {
    Append(rel, Frame(true, succ, t.black, t.left, c))
  }

  lemma {:induction false} SuccessorShape(c: Ctx, t: Tree, rel: Ctx, s: Tree)
    requires t.Node? && s.Node? && s.left == Leaf && t.right == Plug(rel, s) && IsRb(Plug(c, t))
    ensures var hole := SuccessorHole(c, t, rel, s.id);
            && CtxOk(hole)
            && (s.right.Node? ==> IsRb(Plug(hole, s.right.(black := true))))
            && (s.right.Leaf? && !s.black ==> IsRb(Plug(hole, Leaf)))
            && (s.right.Leaf? && s.black ==> CtxBh(hole, 1))
  {
    var hole, hole0 := SuccessorHole(c, t, rel, s.id), SuccessorHole(c, t, rel, t.id);
    PlugAppend(rel, Frame(true, t.id, t.black, t.left, c), s);
    assert Plug(hole0, s) == Plug(c, t);
    var n := RbPlug(hole0, s);
    AppendRename(rel, t.id, s.id, t.black, t.left, c, n);
    if s.right.Node? {
      assert HasBh(s.right, 0) && !s.right.black;
      PlugRb(hole, s.right.(black := true), 1);
    } else if !s.black {
      PlugRb(hole, Leaf, 0);
    }
  }

  lemma {:induction false} SuccessorOrder(c: Ctx, t: Tree, rel: Ctx, s: Tree, s': Tree)
    requires t.Node? && s.Node? && s.left == Leaf && t.right == Plug(rel, s) && AllLeft(rel) && Distinct(Plug(c, t))
    requires InOrder(s') == InOrder(s.right)
    ensures var tree' := Plug(SuccessorHole(c, t, rel, s.id), s');
            && tree' == Plug(c, Node(s.id, t.black, t.left, Plug(rel, s')))
            && InOrder(tree') == Without(InOrder(Plug(c, t)), t.id)
            && Distinct(tree')
  {
    PlugAppend(rel, Frame(true, s.id, t.black, t.left, c), s');
    AllLeftBefore(rel);
    PlugInOrder(rel, s);
    PlugInOrder(rel, s');
    var t' := Node(s.id, t.black, t.left, Plug(rel, s'));
    var r := InOrder(Plug(rel, s'));
    FirstOfMiddle([s.id], InOrder(s'), After(rel));
    assert InOrder(t.right) == [s.id] + r;
    PlugInOrder(c, t');
    SuccessorMoves(Before(c), InOrder(t.left), [s.id], r, After(c));
    SameRemaining(c, t, Plug(c, t'));
  }

  lemma {:induction false} FirstOfMiddle(x: seq<Ptr>, m: seq<Ptr>, b: seq<Ptr>)
    ensures [] + ([] + x + m) + b == x + ([] + m + b)
  {
  }

  lemma {:induction false} SuccessorMoves(b: seq<Ptr>, l: seq<Ptr>, s: seq<Ptr>, r: seq<Ptr>, a: seq<Ptr>)
    ensures b + (l + s + r) + a == (b + l) + ((s + r) + a)
  {
  }

  function Repainted(t: Tree, b: bool): Tree {
    if t.Leaf? then t else t.(black := b)
  }

  /** Repainted and hung under another parent. */
  lemma {:induction false} MovedRepainted(h: Arena, h': Arena, changed: set<Ptr>, t: Tree, p: Ptr, p': Ptr, b: bool)
    requires Rep(h, t, p) && RootOnce(t) && Unchanged(h, h', changed + RootSet(t)) && changed !! Ids(t)
    requires t.Node? ==> t.id in h && t.id in h' && h'[t.id] == h[t.id].(parent := p', black := b)
    ensures Rep(h', Repainted(t, b), p')
  {
    if t.Node? {
      RepOutside(h, h', changed + RootSet(t), t.left, t.id);
      RepOutside(h, h', changed + RootSet(t), t.right, t.id);
    }
  }

  /** The path c when the node below it is exchanged. */
  lemma {:induction false} CtxExchange(h: Arena, h': Arena, changed: set<Ptr>, c: Ctx, old_: Ptr, new_: Ptr, root: Ptr, root': Ptr)
    requires RepCtx(h, c, old_, root, NULL) && old_ != NULL && old_ !in CtxIds(c) && CtxDistinct(c)
    requires Unchanged(h, h', changed) && (c.Top? ==> root' == new_)
    requires c.Frame? ==> changed !! CtxIds(c) - {c.id} && root' == root
    requires c.Frame? ==> c.id in h && c.id in h' && h'[c.id] == h[c.id].SetChild(h[c.id].left != old_, new_)
    ensures RepCtx(h', c, new_, root', NULL)
  {
    if c.Frame? {
      var h1 := SetChild(h, c.id, h[c.id].left != old_, new_);
      CtxChangeChild(h, c, old_, new_, root, NULL);
      RepCtxFrame(h1, h', c, new_, root, NULL);
    }
  }

  lemma {:induction false} TopMoved(h: Arena, h': Arena, c: Ctx, hole: Ptr, top: Ptr, above: Ptr, above': Ptr)
    requires c.Frame? && RepCtx(h, c, hole, top, above) && CtxDistinct(c)
    requires forall x :: x in CtxIds(c) && x in h ==> x in h' && h'[x] == if x == top then h[x].(parent := above') else h[x]
    ensures RepCtx(h', c, hole, top, above') && top in CtxIds(c)
  {
    RepCtxTop(h, c, hole, top, above);
    if c.up.Top? {
      RepFrame(h, h', c.sibling, c.id);
    } else {
      RepCtxTop(h, c.up, c.id, top, above);
      TopMoved(h, h', c.up, c.id, top, above, above');
      RepFrame(h, h', c.sibling, c.id);
    }
  }

  lemma {:induction false} RepCtxTop(h: Arena, c: Ctx, hole: Ptr, top: Ptr, above: Ptr)
    requires c.Frame? && RepCtx(h, c, hole, top, above)
    ensures top in CtxIds(c)
  {
    if c.up.Frame? {
      RepCtxTop(h, c.up, c.id, top, above);
    }
  }

  /** Only the lower end of the path (its left link) and its upper end (its parent) were rewritten. */
  ghost predicate EndsMoved(h: Arena, h': Arena, rel: Ctx, c2: Ptr, y: Ptr, succ: Ptr)
    requires rel.Frame?
  {
    forall x :: x in CtxIds(rel) && x in h ==> x in h' && h'[x] == EndNode(h, rel, x, c2, y, succ)
  }

  ghost function EndNode(h: Arena, rel: Ctx, x: Ptr, c2: Ptr, y: Ptr, succ: Ptr): RbNode
    requires rel.Frame? && x in h
  {
    var n := if x == rel.id then h[x].(left := c2) else h[x];
    if x == y then n.(parent := succ) else n
  }

  /** The path from the erased node's right child down to its successor, once the successor left it. */
  lemma {:induction false} RelMoved(h: Arena, h': Arena, rel: Ctx, succ: Ptr, c2: Ptr, y: Ptr, node: Ptr)
    requires rel.Frame? && AllLeft(rel) && RepCtx(h, rel, succ, y, node) && CtxDistinct(rel)
    requires succ != NULL && succ !in CtxIds(rel) && rel.id in h && y in h
    requires EndsMoved(h, h', rel, c2, y, succ)
    ensures RepCtx(h', rel, c2, y, succ)
  {
    CtxChangeChild(h, rel, succ, c2, y, node);
    TopMoved(SetChild(h, rel.id, false, c2), h', rel, c2, y, node, succ);
  }

  ghost function HeadSet(c: Ctx): set<Ptr> {
    if c.Top? then {} else {c.id}
  }

  /** Memory after a node with one child at most was replaced by that child. */
  lemma {:induction false} SpliceInMemory(h: Arena, h': Arena, root: Ptr, root': Ptr, c: Ctx, t: Tree, s: Tree)
    requires t.Node? && Rep(h, Plug(c, t), NULL) && root == Root(Plug(c, t)) && Distinct(Plug(c, t))
    requires (t.left == Leaf && s == t.right) || (t.right == Leaf && s == t.left)
    requires c.Top? ==> root' == Root(s)
    requires c.Frame? ==> root' == root && c.id in h && c.id in h' && h'[c.id] == h[c.id].SetChild(h[c.id].left != t.id, Root(s))
    requires s.Node? ==> s.id in h && s.id in h' && h'[s.id] == h[s.id].(parent := Parent(c, NULL), black := t.black)
    requires Unchanged(h, h', HeadSet(c) + RootSet(s))
    ensures Rep(h', Plug(c, Repainted(s, t.black)), NULL) && root' == Root(Plug(c, Repainted(s, t.black)))
  {
    var s' := Repainted(s, t.black);
    RepPlug(h, c, t, root, NULL);
    PlugIds(c, t);
    var up := HeadSet(c);
    MovedRepainted(h, h', up, s, t.id, Parent(c, NULL), t.black);
    CtxExchange(h, h', up + RootSet(s), c, t.id, Root(s), root, root');
    RepPlug(h', c, s', root', NULL);
  }

  /** The parts around an erased node with two children share no node. */
  ghost predicate ErasedApart(c: Ctx, t: Tree, rel: Ctx, s: Tree)
    requires t.Node? && s.Node?
  {
    && CtxDistinct(c) && CtxDistinct(rel) && RootOnce(t.left) && RootOnce(s.right)
    && t.id !in CtxIds(c) && t.id !in CtxIds(rel) && t.id !in Ids(t.left) && t.id !in Ids(s.right) && t.id != s.id
    && s.id !in CtxIds(c) && s.id !in CtxIds(rel) && s.id !in Ids(t.left) && s.id !in Ids(s.right)
    && CtxIds(c) !! CtxIds(rel) && CtxIds(c) !! Ids(t.left) && CtxIds(c) !! Ids(s.right)
    && CtxIds(rel) !! Ids(t.left) && CtxIds(rel) !! Ids(s.right) && Ids(t.left) !! Ids(s.right)
  }

  lemma {:induction false} ErasedParts(c: Ctx, t: Tree, rel: Ctx, s: Tree)
    requires t.Node? && s.Node? && s.left == Leaf && t.right == Plug(rel, s) && Distinct(Plug(c, t))
    ensures ErasedApart(c, t, rel, s)
  {
    PlugIds(c, t);
    PlugIds(rel, s);
    assert Ids(s) == {s.id} + Ids(s.right);
    assert Ids(t) == {t.id} + Ids(t.left) + Ids(t.right);
  }

  /** The nodes that change when the successor takes the erased node's place. */
  ghost function ErasedChanged(c: Ctx, t: Tree, rel: Ctx, s: Tree): set<Ptr>
    requires t.Node? && s.Node?
  {
    {s.id} + RootSet(t.left) + RootSet(s.right) + HeadSet(c) + EndSet(t, rel)
  }

  ghost function EndSet(t: Tree, rel: Ctx): set<Ptr>
    requires t.Node?
  {
    if rel.Top? then {} else {rel.id, Root(t.right)}
  }

  lemma {:induction false} SuccessorInMemory(h: Arena, h': Arena, root: Ptr, root': Ptr, c: Ctx, t: Tree, rel: Ctx, s: Tree)
    requires t.Node? && t.left.Node? && s.Node? && s.left == Leaf && t.right == Plug(rel, s) && AllLeft(rel)
    requires Rep(h, Plug(c, t), NULL) && root == Root(Plug(c, t)) && Distinct(Plug(c, t))
    requires c.Top? ==> root' == s.id
    requires c.Frame? ==> root' == root && c.id in h && c.id in h' && h'[c.id] == h[c.id].SetChild(h[c.id].left != t.id, s.id)
    requires s.id in h' && h'[s.id] == RbNode(Parent(c, NULL), t.black, t.left.id, if rel.Top? then Root(s.right) else Root(t.right))
    requires t.left.id in h && t.left.id in h' && h'[t.left.id] == h[t.left.id].(parent := s.id)
    requires s.right.Node? ==>
               && s.right.id in h && s.right.id in h'
               && h'[s.right.id] == h[s.right.id].(parent := Parent(rel, s.id), black := true)
    requires rel.Frame? ==> rel.id in h && rel.id in h' && h'[rel.id] == EndNode(h, rel, rel.id, Root(s.right), Root(t.right), s.id)
    requires rel.Frame? ==>
               && Root(t.right) in h && Root(t.right) in h'
               && h'[Root(t.right)] == EndNode(h, rel, Root(t.right), Root(s.right), Root(t.right), s.id)
    requires Unchanged(h, h', ErasedChanged(c, t, rel, s))
    ensures var tree' := Plug(c, Node(s.id, t.black, t.left, Plug(rel, Repainted(s.right, true))));
            Rep(h', tree', NULL) && root' == Root(tree')
  {
    var top := if rel.Top? then Root(s.right) else Root(t.right);
    ErasedParts(c, t, rel, s);
    ErasedReps(h, root, c, t, rel, s);
    ErasedFrames(h, h', c, t, rel, s);
    ErasedPath(h, h', root, root', c, t, rel, s);
    ErasedEnds(h, h', c, t, rel, s);
    ErasedRel(h, h', c, t, rel, s);
    SuccessorAssemble(h', root', c, t, rel, s, top);
  }

  lemma {:induction false} ErasedPath(h: Arena, h': Arena, root: Ptr, root': Ptr, c: Ctx, t: Tree, rel: Ctx, s: Tree)
    requires t.Node? && s.Node? && ErasedApart(c, t, rel, s) && RepCtx(h, c, t.id, root, NULL) && t.id != NULL
    requires c.Top? ==> root' == s.id
    requires c.Frame? ==> root' == root && c.id in h && c.id in h' && h'[c.id] == h[c.id].SetChild(h[c.id].left != t.id, s.id)
    requires Unchanged(h, h', ErasedChanged(c, t, rel, s))
    requires c.Frame? ==> ErasedChanged(c, t, rel, s) !! CtxIds(c) - {c.id}
    ensures RepCtx(h', c, s.id, root', NULL)
  {
    CtxExchange(h, h', ErasedChanged(c, t, rel, s), c, t.id, s.id, root, root');
  }

  lemma {:induction false} ErasedEnds(h: Arena, h': Arena, c: Ctx, t: Tree, rel: Ctx, s: Tree)
    requires t.Node? && s.Node? && ErasedApart(c, t, rel, s)
    requires rel.Frame? ==> rel.id in h && rel.id in h' && h'[rel.id] == EndNode(h, rel, rel.id, Root(s.right), Root(t.right), s.id)
    requires rel.Frame? ==>
               && Root(t.right) in h && Root(t.right) in h'
               && h'[Root(t.right)] == EndNode(h, rel, Root(t.right), Root(s.right), Root(t.right), s.id)
    requires Unchanged(h, h', ErasedChanged(c, t, rel, s))
    ensures rel.Frame? ==> EndsMoved(h, h', rel, Root(s.right), Root(t.right), s.id)
  {
    if rel.Frame? {
      assert HeadSet(c) <= CtxIds(c) && RootSet(t.left) <= Ids(t.left) && RootSet(s.right) <= Ids(s.right);
      assert ErasedChanged(c, t, rel, s) * CtxIds(rel) <= {rel.id, Root(t.right)};
    }
  }

  lemma {:induction false} ErasedRel(h: Arena, h': Arena, c: Ctx, t: Tree, rel: Ctx, s: Tree)
    requires t.Node? && s.Node? && ErasedApart(c, t, rel, s) && RepCtx(h, rel, s.id, Root(t.right), t.id) && s.id != NULL
    requires AllLeft(rel) && (rel.Frame? ==> rel.id in h && Root(t.right) in h)
    requires rel.Frame? ==> EndsMoved(h, h', rel, Root(s.right), Root(t.right), s.id)
    ensures RepCtx(h', rel, Root(s.right), if rel.Top? then Root(s.right) else Root(t.right), s.id)
  {
    if rel.Frame? {
      RelMoved(h, h', rel, s.id, Root(s.right), Root(t.right), t.id);
    }
  }

  lemma {:induction false} ErasedReps(h: Arena, root: Ptr, c: Ctx, t: Tree, rel: Ctx, s: Tree)
    requires t.Node? && s.Node? && t.right == Plug(rel, s)
    requires Rep(h, Plug(c, t), NULL) && root == Root(Plug(c, t))
    ensures RepCtx(h, c, t.id, root, NULL) && t.id != NULL && s.id != NULL
    ensures Rep(h, t.left, t.id) && Rep(h, s.right, s.id) && RepCtx(h, rel, s.id, Root(t.right), t.id)
    ensures rel.Frame? ==> rel.id in h && Root(t.right) in h && Root(t.right) in CtxIds(rel)
  {
    RepPlug(h, c, t, root, NULL);
    RepPlug(h, rel, s, Root(t.right), t.id);
    PlugNode(rel, s);
    if rel.Frame? {
      RepCtxTop(h, rel, s.id, Root(t.right), t.id);
    }
  }

  lemma {:induction false} SuccessorAssemble(h: Arena, root: Ptr, c: Ctx, t: Tree, rel: Ctx, s: Tree, top: Ptr)
    requires t.Node? && s.Node? && s.id != NULL && RepCtx(h, c, s.id, root, NULL) && RepCtx(h, rel, Root(s.right), top, s.id)
    requires Rep(h, t.left, s.id) && Rep(h, Repainted(s.right, true), Parent(rel, s.id))
    requires s.id in h && h[s.id] == RbNode(Parent(c, NULL), t.black, Root(t.left), top)
    ensures var tree' := Plug(c, Node(s.id, t.black, t.left, Plug(rel, Repainted(s.right, true))));
            Rep(h, tree', NULL) && root == Root(tree')
  {
    var c2 := Repainted(s.right, true);
    RepPlug(h, rel, c2, top, s.id);
    RepMk(h, false, s.id, t.black, t.left, Plug(rel, c2), Parent(c, NULL));
    RepPlug(h, c, Node(s.id, t.black, t.left, Plug(rel, c2)), root, NULL);
  }

  lemma {:induction false} ErasedFrames(h: Arena, h': Arena, c: Ctx, t: Tree, rel: Ctx, s: Tree)
    requires t.Node? && t.left.Node? && s.Node? && ErasedApart(c, t, rel, s)
    requires Rep(h, t.left, t.id) && Rep(h, s.right, s.id) && (rel.Frame? ==> Root(t.right) in CtxIds(rel))
    requires t.left.id in h && t.left.id in h' && h'[t.left.id] == h[t.left.id].(parent := s.id)
    requires s.right.Node? ==>
               && s.right.id in h && s.right.id in h'
               && h'[s.right.id] == h[s.right.id].(parent := Parent(rel, s.id), black := true)
    requires Unchanged(h, h', ErasedChanged(c, t, rel, s))
    ensures Rep(h', t.left, s.id) && Rep(h', Repainted(s.right, true), Parent(rel, s.id))
    ensures c.Frame? ==> ErasedChanged(c, t, rel, s) !! CtxIds(c) - {c.id}
  {
    var up := HeadSet(c) + EndSet(t, rel) + {s.id};
    assert up <= CtxIds(c) + CtxIds(rel) + {s.id};
    assert ErasedChanged(c, t, rel, s) == (up + RootSet(s.right)) + RootSet(t.left) == (up + RootSet(t.left)) + RootSet(s.right);
    MovedRepainted(h, h', up + RootSet(s.right), t.left, t.id, s.id, t.left.black);
    MovedRepainted(h, h', up + RootSet(t.left), s.right, s.id, Parent(rel, s.id), true);
  }

  /** What cases 2 and 3 read. */
  lemma {:induction false} ErasedReads(h: Arena, root: Ptr, c: Ctx, t: Tree, rel: Ctx, s: Tree)
    requires t.Node? && t.left.Node? && s.Node? && s.left == Leaf && t.right == Plug(rel, s)
    requires Rep(h, Plug(c, t), NULL) && root == Root(Plug(c, t))
    ensures t.id in h && h[t.id] == RbNode(Parent(c, NULL), t.black, t.left.id, Root(t.right)) && t.id != NULL
    ensures s.id in h && s.id != NULL && h[s.id].black == s.black && h[s.id].left == NULL && h[s.id].right == Root(s.right)
    ensures t.left.id in h && t.left.id != NULL && (s.right.Node? ==> s.right.id in h && s.right.id != NULL)
    ensures c.Frame? ==> c.id in h && c.id != NULL
    ensures rel.Frame? ==> rel.id in h && rel.id != NULL
    ensures rel.Frame? ==> Root(t.right) in h && Root(t.right) != NULL && Root(t.right) in CtxIds(rel)
    ensures rel.Top? ==> Root(t.right) == s.id
  {
    ErasedReps(h, root, c, t, rel, s);
    RepPlug(h, c, t, root, NULL);
    RepPlug(h, rel, s, Root(t.right), t.id);
    PlugNode(rel, s);
  }

  lemma {:induction false} PlugNode(c: Ctx, t: Tree)
    requires t.Node?
    ensures Plug(c, t).Node?
    decreases c
  {
    if c.Frame? {
      PlugNode(c.up, Mk(c.side, c.id, c.black, t, c.sibling));
    }
  }

  lemma {:induction false} ErasedIds(c: Ctx, t: Tree, rel: Ctx, s: Tree, y: Ptr)
    requires t.Node? && t.left.Node? && s.Node? && ErasedApart(c, t, rel, s) && (rel.Frame? ==> y in CtxIds(rel))
    ensures t.left.id !in {t.id, s.id} && (s.right.Node? ==> s.right.id !in {t.id, s.id, t.left.id})
    ensures c.Frame? ==> c.id !in {t.id, s.id, t.left.id} + RootSet(s.right)
    ensures rel.Frame? ==> rel.id !in {t.id, s.id, t.left.id} + RootSet(s.right) && y !in {t.id, s.id, t.left.id} + RootSet(s.right)
    ensures rel.Frame? && c.Frame? ==> rel.id != c.id && y != c.id
  {
    assert t.left.id in Ids(t.left) && RootSet(s.right) <= Ids(s.right);
    assert c.Frame? ==> c.id in CtxIds(c);
  }

  lemma {:induction false} ErasedFacts(c: Ctx, t: Tree, rel: Ctx, s: Tree, y: Ptr)
    requires t.Node? && t.left.Node? && s.Node? && s.left == Leaf && t.right == Plug(rel, s) && Distinct(Plug(c, t))
    requires rel.Frame? ==> y in CtxIds(rel)
    ensures t.left.id !in {t.id, s.id} && s.id != t.id && (s.right.Node? ==> s.right.id !in {t.id, s.id, t.left.id})
    ensures c.Frame? ==> c.id !in {t.id, s.id, t.left.id} && (s.right.Node? ==> s.right.id != c.id)
    ensures rel.Frame? ==> rel.id !in {t.id, s.id, t.left.id} && y !in {t.id, s.id, t.left.id}
    ensures rel.Frame? && s.right.Node? ==> rel.id != s.right.id && y != s.right.id
    ensures rel.Frame? && c.Frame? ==> rel.id != c.id && y != c.id
  {
    ErasedParts(c, t, rel, s);
    ErasedIds(c, t, rel, s, y);
  }

  /** Memory, shape and order after a new red node was linked at the NULL link below c. */
  lemma {:induction false} LinkedInMemory(h: Arena, h': Arena, root: Ptr, root': Ptr, c: Ctx, node: Ptr)
    requires Rep(h, Plug(c, Leaf), NULL) && root == Root(Plug(c, Leaf)) && Distinct(Plug(c, Leaf)) && node !in Ids(Plug(c, Leaf))
    requires node != NULL
    requires var h1 := h[node := RbNode(Parent(c, NULL), false, NULL, NULL)];
             && (c.Top? ==> h' == h1 && root' == node)
             && (c.Frame? ==> c.id in h1 && root' == root && h' == SetChild(h1, c.id, c.side, node))
    ensures var t := Plug(c, Node(node, false, Leaf, Leaf));
            Rep(h', t, NULL) && root' == Root(t) && Distinct(t) && InOrder(t) == Before(c) + [node] + After(c)
  {
    LinkedPath(h, h', root, root', c, node);
    LinkedOrder(c, node);
    RepPlug(h', c, Node(node, false, Leaf, Leaf), root', NULL);
  }

  lemma {:induction false} LinkedPath(h: Arena, h': Arena, root: Ptr, root': Ptr, c: Ctx, node: Ptr)
    requires Rep(h, Plug(c, Leaf), NULL) && root == Root(Plug(c, Leaf)) && Distinct(Plug(c, Leaf)) && node !in Ids(Plug(c, Leaf))
    requires node != NULL
    requires var h1 := h[node := RbNode(Parent(c, NULL), false, NULL, NULL)];
             && (c.Top? ==> h' == h1 && root' == node)
             && (c.Frame? ==> c.id in h1 && root' == root && h' == SetChild(h1, c.id, c.side, node))
    ensures RepCtx(h', c, node, root', NULL) && Rep(h', Node(node, false, Leaf, Leaf), Parent(c, NULL))
  {
    RepPlug(h, c, Leaf, root, NULL);
    PlugIds(c, Leaf);
    if c.Frame? {
      RepOutside(h, h', {node, c.id}, c.sibling, c.id);
      RepCtxOutside(h, h', {node, c.id}, c.up, c.id, root, NULL);
    }
  }

  lemma {:induction false} LinkedOrder(c: Ctx, node: Ptr)
    requires Distinct(Plug(c, Leaf)) && node !in Ids(Plug(c, Leaf))
    ensures var t := Plug(c, Node(node, false, Leaf, Leaf)); Distinct(t) && InOrder(t) == Before(c) + [node] + After(c)
  {
    PlugIds(c, Leaf);
    PlugIds(c, Node(node, false, Leaf, Leaf));
    PlugInOrder(c, Node(node, false, Leaf, Leaf));
  }

  ghost function PtrSet(p: Ptr): set<Ptr> {
    if p == NULL then {} else {p}
  }

  lemma {:induction false} UnchangedTwice(h0: Arena, h1: Arena, h2: Arena, a: set<Ptr>, b: set<Ptr>)
    requires Unchanged(h0, h1, a) && Unchanged(h1, h2, b)
    ensures Unchanged(h0, h2, a + b)
  {
  }

  /** The nodes around the successor's new place. */
  lemma {:induction false} SuccessorNear(h0: Arena, h1: Arena, h2: Arena, c: Ctx, t: Tree, rel: Ctx, s: Tree)
    requires t.Node? && t.left.Node? && s.Node? && h0.Keys == h1.Keys == h2.Keys && s.id in h0 && t.left.id in h0
    requires t.left.id != s.id && (s.right.Node? ==> s.right.id !in {s.id, t.left.id}) && (c.Frame? ==> c.id !in {s.id, t.left.id})
    requires h0[s.id].right == Root(s.right)
    requires h1[s.id] == h0[s.id].(left := t.left.id, right := if rel.Top? then Root(s.right) else Root(t.right))
    requires h1[t.left.id] == h0[t.left.id].(parent := s.id)
    requires h2[s.id] == h1[s.id].(parent := Parent(c, NULL), black := t.black)
    requires Unchanged(h1, h2, {s.id} + PtrSet(Root(s.right)) + PtrSet(Parent(c, NULL))) && t.left.id != NULL
    ensures h2[s.id] == RbNode(Parent(c, NULL), t.black, t.left.id, if rel.Top? then Root(s.right) else Root(t.right))
    ensures h2[t.left.id] == h0[t.left.id].(parent := s.id)
  {
    assert t.left.id !in {s.id} + PtrSet(Root(s.right)) + PtrSet(Parent(c, NULL));
  }

  /** The nodes around the successor's old place, and the erased node's parent. */
  lemma {:induction false} SuccessorFar(h0: Arena, h1: Arena, h2: Arena, c: Ctx, t: Tree, rel: Ctx, s: Tree)
    requires t.Node? && t.left.Node? && s.Node? && h0.Keys == h1.Keys == h2.Keys
    requires s.right.Node? ==> s.right.id in h0 && s.right.id !in {s.id, t.left.id} && s.right.id != NULL
    requires c.Frame? ==> c.id in h0 && c.id !in {s.id, t.left.id} && c.id != NULL && (s.right.Node? ==> s.right.id != c.id)
    requires rel.Frame? ==> rel.id in h0 && Root(t.right) in h0 && rel.id != NULL && Root(t.right) != NULL
    requires rel.Frame? ==> rel.id !in {s.id, t.left.id} && Root(t.right) !in {s.id, t.left.id}
    requires rel.Frame? && s.right.Node? ==> rel.id != s.right.id && Root(t.right) != s.right.id
    requires rel.Frame? && c.Frame? ==> rel.id != c.id && Root(t.right) != c.id
    requires Unchanged(h0, h1, {s.id, t.left.id} + EndSet(t, rel))
    requires Unchanged(h1, h2, {s.id} + PtrSet(Root(s.right)) + PtrSet(Parent(c, NULL)))
    ensures s.right.Node? ==> h1[s.right.id] == h0[s.right.id]
    ensures c.Frame? ==> h1[c.id] == h0[c.id]
    ensures rel.Frame? ==> h2[rel.id] == h1[rel.id] && h2[Root(t.right)] == h1[Root(t.right)]
  {
  }

  /** Memory after the successor left its place (h1) and took the erased node's (h2). */
  lemma {:induction false} SuccessorDone(h0: Arena, h1: Arena, h2: Arena, root: Ptr, root': Ptr, c: Ctx, t: Tree, rel: Ctx, s: Tree)
    requires t.Node? && t.left.Node? && s.Node? && s.left == Leaf && t.right == Plug(rel, s) && AllLeft(rel)
    requires Rep(h0, Plug(c, t), NULL) && root == Root(Plug(c, t)) && Distinct(Plug(c, t))
    requires h0.Keys == h1.Keys == h2.Keys && s.id in h0 && t.id in h0 && t.left.id in h0
    requires h1[s.id] == h0[s.id].(left := t.left.id, right := if rel.Top? then Root(s.right) else Root(t.right))
    requires h1[t.left.id] == h0[t.left.id].(parent := s.id)
    requires rel.Frame? ==> rel.id in h0 && Root(t.right) in h0
    requires rel.Frame? ==> h1[rel.id] == EndNode(h0, rel, rel.id, Root(s.right), Root(t.right), s.id)
    requires rel.Frame? ==> h1[Root(t.right)] == EndNode(h0, rel, Root(t.right), Root(s.right), Root(t.right), s.id)
    requires Unchanged(h0, h1, {s.id, t.left.id} + EndSet(t, rel))
    requires var p := Parent(c, NULL);
             && h2[s.id] == h1[s.id].(parent := p, black := t.black)
             && (s.right.Node? ==> s.right.id in h1 && h2[s.right.id] == h1[s.right.id].(parent := Parent(rel, s.id), black := true))
             && (c.Top? ==> root' == s.id)
             && (c.Frame? ==> root' == root && c.id in h1 && h2[c.id] == h1[c.id].SetChild(h1[c.id].left != t.id, s.id))
             && Unchanged(h1, h2, {s.id} + PtrSet(Root(s.right)) + PtrSet(p))
    ensures var tree' := Plug(c, Node(s.id, t.black, t.left, Plug(rel, Repainted(s.right, true))));
            Rep(h2, tree', NULL) && root' == Root(tree')
  {
    ErasedReads(h0, root, c, t, rel, s);
    ErasedFacts(c, t, rel, s, Root(t.right));
    SuccessorNear(h0, h1, h2, c, t, rel, s);
    SuccessorFar(h0, h1, h2, c, t, rel, s);
    UnchangedTwice(h0, h1, h2, {s.id, t.left.id} + EndSet(t, rel), {s.id} + PtrSet(Root(s.right)) + PtrSet(Parent(c, NULL)));
    assert {s.id, t.left.id} + EndSet(t, rel) + ({s.id} + PtrSet(Root(s.right)) + PtrSet(Parent(c, NULL))) == ErasedChanged(c, t, rel, s);
    SuccessorInMemory(h0, h2, root, root', c, t, rel, s);
  }
}
