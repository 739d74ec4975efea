/** Red-black trees as kernel/rbtree.c stores them: nodes that hold parent, colour, left and
    right, linked by pointers. `Tree` is the shape those nodes spell out, `Ctx` is the same
    tree seen from one of its links (a zipper: the path from that link up to the root).

    The source writes every rebalancing step twice, once per side. Here a side is a bool
    (false for rb_left, true for rb_right) and each step is written once for both. */
module RbTree {
  import opened Seqs

  /** A node address; 0 is NULL. */
  type Ptr = nat

  const NULL: Ptr := 0

  /** struct rb_node, with the packed word __rb_parent_color split in its two parts. */
  datatype RbNode = RbNode(parent: Ptr, black: bool, left: Ptr, right: Ptr) {
    function Child(side: bool): Ptr {
      if side then right else left
    }

    function SetChild(side: bool, p: Ptr): RbNode {
      if side then this.(right := p) else this.(left := p)
    }
  }

  type Arena = map<Ptr, RbNode>

  datatype Tree = Leaf | Node(id: Ptr, black: bool, left: Tree, right: Tree)

  /** The path above a link: the link is child `side` of node `id`, whose other child is `sibling`. */
  datatype Ctx = Top | Frame(side: bool, id: Ptr, black: bool, sibling: Tree, up: Ctx)

  function Root(t: Tree): Ptr {
    if t.Leaf? then NULL else t.id
  }

  /** NULL leaves count as black. */
  predicate IsBlack(t: Tree) {
    t.Leaf? || t.black
  }

  /** The node with `near` on side `side` and `far` on the other one. */
  function Mk(side: bool, id: Ptr, black: bool, near: Tree, far: Tree): Tree {
    if side then Node(id, black, far, near) else Node(id, black, near, far)
  }

  function Side(t: Tree, side: bool): Tree
    requires t.Node?
  {
    if side then t.right else t.left
  }

  function InOrder(t: Tree): seq<Ptr> {
    match t
    case Leaf => []
    case Node(id, _, l, r) => InOrder(l) + [id] + InOrder(r)
  }

  ghost function Ids(t: Tree): set<Ptr> {
    match t
    case Leaf => {}
    case Node(id, _, l, r) => Ids(l) + {id} + Ids(r)
  }

  /** No node occurs twice. */
  ghost predicate Distinct(t: Tree) {
    match t
    case Leaf => true
    case Node(id, _, l, r) =>
      id !in Ids(l) && id !in Ids(r) && Ids(l) !! Ids(r) && Distinct(l) && Distinct(r)
  }

  function Plug(c: Ctx, t: Tree): Tree
    decreases c
  {
    match c
    case Top => t
    case Frame(side, id, b, sib, up) => Plug(up, Mk(side, id, b, t, sib))
  }

  /** `lower` continued upwards by `upper`. */
  function Append(lower: Ctx, upper: Ctx): Ctx {
    match lower
    case Top => upper
    case Frame(side, id, b, sib, up) => Frame(side, id, b, sib, Append(up, upper))
  }

  ghost function CtxIds(c: Ctx): set<Ptr> {
    match c
    case Top => {}
    case Frame(_, id, _, sib, up) => {id} + Ids(sib) + CtxIds(up)
  }

  ghost predicate CtxDistinct(c: Ctx) {
    match c
    case Top => true
    case Frame(_, id, _, sib, up) =>
      id !in Ids(sib) && Distinct(sib) && CtxDistinct(up) && CtxIds(up) !! Ids(sib) && id !in CtxIds(up)
  }

  /** What precedes and what follows the link in order. */
  function Before(c: Ctx): seq<Ptr> {
    match c
    case Top => []
    case Frame(side, id, _, sib, up) => if side then Before(up) + InOrder(sib) + [id] else Before(up)
  }

  function After(c: Ctx): seq<Ptr> {
    match c
    case Top => []
    case Frame(side, id, _, sib, up) => if side then After(up) else [id] + InOrder(sib) + After(up)
  }

  // ----- nodes in memory -----

  /** The node just above a link, `above` at the top of the path. */
  function Parent(c: Ctx, above: Ptr): Ptr {
    if c.Top? then above else c.id
  }

  /** The nodes of `h` reached from Root(t) spell out t, below parent p. */
  ghost predicate Rep(h: Arena, t: Tree, p: Ptr) {
    match t
    case Leaf => true
    case Node(id, b, l, r) =>
      && id != NULL && id in h
      && h[id] == RbNode(p, b, Root(l), Root(r))
      && Rep(h, l, id) && Rep(h, r, id)
  }

  /** The nodes of `h` on the path c, whose link holds `hole` and whose top is `root`, below `above`. */
  ghost predicate RepCtx(h: Arena, c: Ctx, hole: Ptr, root: Ptr, above: Ptr) {
    match c
    case Top => hole == root
    case Frame(side, id, b, sib, up) =>
      && id != NULL && id in h
      && h[id].parent == Parent(up, above) && h[id].black == b
      && h[id].Child(side) == hole && h[id].Child(!side) == Root(sib)
      && Rep(h, sib, id)
      && RepCtx(h, up, id, root, above)
  }

  ghost predicate Agree(h: Arena, h': Arena, ids: set<Ptr>) {
    forall x :: x in ids && x in h ==> x in h' && h'[x] == h[x]
  }

  lemma {:induction false} RepFrame(h: Arena, h': Arena, t: Tree, p: Ptr)
    requires Rep(h, t, p) && Agree(h, h', Ids(t))
    ensures Rep(h', t, p)
  {
    if t.Node? {
      RepFrame(h, h', t.left, t.id);
      RepFrame(h, h', t.right, t.id);
    }
  }

  lemma {:induction false} RepCtxFrame(h: Arena, h': Arena, c: Ctx, hole: Ptr, root: Ptr, above: Ptr)
    requires RepCtx(h, c, hole, root, above) && Agree(h, h', CtxIds(c))
    ensures RepCtx(h', c, hole, root, above)
  {
    if c.Frame? {
      RepFrame(h, h', c.sibling, c.id);
      RepCtxFrame(h, h', c.up, c.id, root, above);
    }
  }

  /** Only the nodes in `changed` may differ. */
  ghost predicate Unchanged(h: Arena, h': Arena, changed: set<Ptr>) {
    forall x :: x in h && x !in changed ==> x in h' && h'[x] == h[x]
  }

  lemma {:induction false} RepOutside(h: Arena, h': Arena, changed: set<Ptr>, t: Tree, p: Ptr)
    requires Rep(h, t, p) && Unchanged(h, h', changed) && changed !! Ids(t)
    ensures Rep(h', t, p)
  {
    RepFrame(h, h', t, p);
  }

  lemma {:induction false} RepCtxOutside(h: Arena, h': Arena, changed: set<Ptr>, c: Ctx, hole: Ptr, root: Ptr, above: Ptr)
    requires RepCtx(h, c, hole, root, above) && Unchanged(h, h', changed) && changed !! CtxIds(c)
    ensures RepCtx(h', c, hole, root, above)
  {
    RepCtxFrame(h, h', c, hole, root, above);
  }

  /** A tree in memory is a path and the tree below it. */
  lemma {:induction false} RepPlug(h: Arena, c: Ctx, t: Tree, root: Ptr, above: Ptr)
    ensures Rep(h, Plug(c, t), above) && root == Root(Plug(c, t))
       <==> RepCtx(h, c, Root(t), root, above) && Rep(h, t, Parent(c, above))
    decreases c
  {
    if c.Frame? {
      var t' := Mk(c.side, c.id, c.black, t, c.sibling);
      RepPlug(h, c.up, t', root, above);
    }
  }

  lemma {:induction false} PlugIds(c: Ctx, t: Tree)
    ensures Ids(Plug(c, t)) == CtxIds(c) + Ids(t)
    ensures Distinct(Plug(c, t)) <==> CtxDistinct(c) && Distinct(t) && CtxIds(c) !! Ids(t)
    decreases c
  {
    if c.Frame? {
      PlugIds(c.up, Mk(c.side, c.id, c.black, t, c.sibling));
    }
  }

  lemma {:induction false} PlugInOrder(c: Ctx, t: Tree)
    ensures InOrder(Plug(c, t)) == Before(c) + InOrder(t) + After(c)
    decreases c
  {
    if c.Frame? {
      PlugInOrder(c.up, Mk(c.side, c.id, c.black, t, c.sibling));
      Reassociate(Before(c.up), InOrder(c.sibling), [c.id], InOrder(t), After(c.up));
      Reassociate(Before(c.up), InOrder(t), [c.id], InOrder(c.sibling), After(c.up));
    }
  }

  lemma {:induction false} Reassociate(a: seq<Ptr>, b: seq<Ptr>, c: seq<Ptr>, d: seq<Ptr>, e: seq<Ptr>)
    ensures a + (b + c + d) + e == (a + b + c) + d + e == a + b + (c + d + e)
  {
  }

  lemma {:induction false} PlugAppend(lower: Ctx, upper: Ctx, t: Tree)
    ensures Plug(Append(lower, upper), t) == Plug(upper, Plug(lower, t))
    decreases lower
  {
    if lower.Frame? {
      PlugAppend(lower.up, upper, Mk(lower.side, lower.id, lower.black, t, lower.sibling));
    }
  }

  /** Every node of a tree is the root below exactly one link; the path to it. */
  lemma {:induction false} Locate(c: Ctx, t: Tree, x: Ptr) returns (c': Ctx, t': Tree)
    requires x in Ids(t)
    ensures t'.Node? && t'.id == x && Plug(c', t') == Plug(c, t)
    decreases t
  {
    if x == t.id {
      c', t' := c, t;
    } else if x in Ids(t.left) {
      c', t' := Locate(Frame(false, t.id, t.black, t.right, c), t.left, x);
    } else {
      c', t' := Locate(Frame(true, t.id, t.black, t.left, c), t.right, x);
    }
  }

  lemma {:induction false} InOrderIds(t: Tree)
    ensures forall x :: x in InOrder(t) <==> x in Ids(t)
  {
    if t.Node? {
      InOrderIds(t.left);
      InOrderIds(t.right);
    }
  }

  lemma {:induction false} DistinctNoDup(t: Tree)
    ensures Distinct(t) <==> NoDup(InOrder(t))
  {
    if t.Node? {
      DistinctNoDup(t.left);
      DistinctNoDup(t.right);
      InOrderIds(t.left);
      InOrderIds(t.right);
      NoDupMiddle(InOrder(t.left), t.id, InOrder(t.right));
    }
  }

  /** Exchanging a subtree for one with the same nodes in the same order. */
  lemma {:induction false} PlugSame(c: Ctx, t: Tree, t': Tree)
    requires InOrder(t) == InOrder(t')
    ensures InOrder(Plug(c, t)) == InOrder(Plug(c, t'))
    ensures Distinct(Plug(c, t)) == Distinct(Plug(c, t'))
    ensures Ids(t) == Ids(t')
  {
    PlugInOrder(c, t);
    PlugInOrder(c, t');
    DistinctNoDup(Plug(c, t));
    DistinctNoDup(Plug(c, t'));
    InOrderIds(t);
    InOrderIds(t');
    assert forall x :: x in Ids(t) <==> x in InOrder(t);
  }

  // ----- the red-black properties of kernel/rbtree.c:32-39 -----

  /** Property 5: every path down to a leaf passes n black nodes. */
  predicate HasBh(t: Tree, n: nat) {
    match t
    case Leaf => n == 0
    case Node(_, b, l, r) => if b then n > 0 && HasBh(l, n - 1) && HasBh(r, n - 1) else HasBh(l, n) && HasBh(r, n)
  }

  /** Property 4: both children of every red node are black. */
  predicate NoRedRed(t: Tree) {
    match t
    case Leaf => true
    case Node(_, b, l, r) => (b || (IsBlack(l) && IsBlack(r))) && NoRedRed(l) && NoRedRed(r)
  }

  ghost predicate IsRb(t: Tree) {
    IsBlack(t) && NoRedRed(t) && exists n: nat :: HasBh(t, n)
  }

  /** Property 5 for a path whose link expects a tree of black height n. */
  predicate CtxBh(c: Ctx, n: nat) {
    match c
    case Top => true
    case Frame(_, _, b, sib, up) => HasBh(sib, n) && CtxBh(up, if b then n + 1 else n)
  }

  /** Properties 2 and 4 for a path, the tree at its link left aside. */
  predicate CtxOk(c: Ctx) {
    match c
    case Top => true
    case Frame(_, _, b, sib, up) =>
      NoRedRed(sib) && (b || (IsBlack(sib) && up.Frame? && up.black)) && CtxOk(up)
  }

  lemma {:induction false} PlugRb(c: Ctx, t: Tree, n: nat)
    requires CtxBh(c, n) && HasBh(t, n) && CtxOk(c) && NoRedRed(t) && (IsBlack(t) || (c.Frame? && c.black))
    ensures IsRb(Plug(c, t))
    decreases c
  {
    if c.Frame? {
      PlugRb(c.up, Mk(c.side, c.id, c.black, t, c.sibling), if c.black then n + 1 else n);
    }
  }

  /** The converse: a red-black tree splits into a good path and a good tree, at any link. */
  lemma {:induction false} RbPlug(c: Ctx, t: Tree) returns (n: nat)
    requires IsRb(Plug(c, t))
    ensures CtxBh(c, n) && HasBh(t, n) && CtxOk(c) && NoRedRed(t) && (IsBlack(t) || (c.Frame? && c.black))
    decreases c
  {
    if c.Top? {
      n :| HasBh(t, n);
    } else {
      var m := RbPlug(c.up, Mk(c.side, c.id, c.black, t, c.sibling));
      n := if c.black then m - 1 else m;
    }
  }

  // ----- the O(log n) guarantee -----

  function Max(a: nat, b: nat): nat {
    if a < b then b else a
  }

  function Height(t: Tree): nat {
    match t
    case Leaf => 0
    case Node(_, _, l, r) => 1 + Max(Height(l), Height(r))
  }

  function Pow2(n: nat): nat {
    if n == 0 then 1 else 2 * Pow2(n - 1)
  }

  lemma {:induction false} BhBounds(t: Tree, n: nat)
    requires HasBh(t, n) && NoRedRed(t)
    ensures Height(t) <= 2 * n + (if IsBlack(t) then 0 else 1)
    ensures Pow2(n) <= |InOrder(t)| + 1
  {
    if t.Node? {
      var m := if t.black then n - 1 else n;
      BhBounds(t.left, m);
      BhBounds(t.right, m);
    }
  }

  lemma {:induction false} Pow2Monotone(a: nat, b: nat)
    requires a <= b
    ensures Pow2(a) <= Pow2(b)
    decreases b - a
  {
    if a < b {
      Pow2Monotone(a + 1, b);
    }
  }

  lemma {:induction false} Pow2Double(n: nat)
    ensures Pow2(2 * n) == Pow2(n) * Pow2(n)
  {
    if n > 0 {
      Pow2Double(n - 1);
      assert Pow2(2 * n) == 4 * Pow2(2 * n - 2);
    }
  }

  lemma {:induction false} SquareMonotone(a: nat, b: nat)
    requires a <= b
    ensures a * a <= b * b
  {
    assert a * a <= a * b <= b * b;
  }

  /** A red-black tree of n nodes is at most 2 * log2(n + 1) high. */
  lemma {:induction false} LogarithmicHeight(t: Tree)
    requires IsRb(t)
    ensures Pow2(Height(t)) <= (|InOrder(t)| + 1) * (|InOrder(t)| + 1)
  {
    var n: nat :| HasBh(t, n);
    BhBounds(t, n);
    Pow2Monotone(Height(t), 2 * n);
    Pow2Double(n);
    SquareMonotone(Pow2(n), |InOrder(t)| + 1);
  }

  // ----- the order of visits -----

  function PostOrder(t: Tree): seq<Ptr> {
    match t
    case Leaf => []
    case Node(id, _, l, r) => PostOrder(l) + PostOrder(r) + [id]
  }

  function PostBefore(c: Ctx): seq<Ptr> {
    match c
    case Top => []
    case Frame(side, _, _, sib, up) => if side then PostBefore(up) + PostOrder(sib) else PostBefore(up)
  }

  function PostAfter(c: Ctx): seq<Ptr> {
    match c
    case Top => []
    case Frame(side, id, _, sib, up) => if side then [id] + PostAfter(up) else PostOrder(sib) + [id] + PostAfter(up)
  }

  lemma {:induction false} PlugPostOrder(c: Ctx, t: Tree)
    ensures PostOrder(Plug(c, t)) == PostBefore(c) + PostOrder(t) + PostAfter(c)
    decreases c
  {
    if c.Frame? {
      PlugPostOrder(c.up, Mk(c.side, c.id, c.black, t, c.sibling));
      Reassociate(PostBefore(c.up), PostOrder(c.sibling), PostOrder(t), [c.id], PostAfter(c.up));
      Reassociate(PostBefore(c.up), PostOrder(t), PostOrder(c.sibling), [c.id], PostAfter(c.up));
    }
  }

  lemma {:induction false} PostOrderIds(t: Tree)
    ensures forall x :: x in PostOrder(t) <==> x in Ids(t)
    ensures Distinct(t) ==> NoDup(PostOrder(t))
  {
    if t.Node? {
      PostOrderIds(t.left);
      PostOrderIds(t.right);
      if Distinct(t) {
        NoDupDisjoint(PostOrder(t.left), PostOrder(t.right), t.id);
      }
    }
  }

  lemma {:induction false} NoDupDisjoint(a: seq<Ptr>, b: seq<Ptr>, x: Ptr)
    requires NoDup(a) && NoDup(b) && x !in a && x !in b && forall y :: y in a ==> y !in b
    ensures NoDup(a + b + [x])
  {
    NoDupAppend(a, b);
    NoDupAppend(a + b, [x]);
  }

  function PreOrder(t: Tree): seq<Ptr> {
    match t
    case Leaf => []
    case Node(id, _, l, r) => [id] + PreOrder(l) + PreOrder(r)
  }

  function Head(s: seq<Ptr>): Ptr {
    if s == [] then NULL else s[0]
  }

  /** y comes right after x in s, or y is NULL and x is the last. */
  ghost predicate Follows(s: seq<Ptr>, x: Ptr, y: Ptr) {
    forall i :: 0 <= i < |s| && s[i] == x ==> y == if i + 1 < |s| then s[i + 1] else NULL
  }

  ghost predicate Precedes(s: seq<Ptr>, x: Ptr, y: Ptr) {
    forall i :: 0 <= i < |s| && s[i] == x ==> y == if i > 0 then s[i - 1] else NULL
  }

  lemma {:induction false} FollowsHead(a: seq<Ptr>, x: Ptr, b: seq<Ptr>)
    requires NoDup(a + [x] + b)
    ensures Follows(a + [x] + b, x, Head(b))
    ensures Precedes(a + [x] + b, x, if a == [] then NULL else a[|a| - 1])
  {
    NoDupMiddle(a, x, b);
    var s := a + [x] + b;
    assert forall i :: 0 <= i < |s| && i != |a| ==> if i < |a| then s[i] in a else s[i] in b;
  }
}
