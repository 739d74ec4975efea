/** Searching and changing an address-ordered tree of ranges: what tree order and address order say about each other. */
module VmOrder {
  import opened Seqs
  import opened RbTree
  import opened RbUnlink
  import opened VmSpace

  /** At any node of the tree, everything before it lies below and everything after it above. */
  lemma {:induction false} Around(c: Ctx, t: Tree, s: Space)
    requires t.Node? && Sorted(InOrder(Plug(c, t)), s)
    ensures t.id in s
    ensures forall y :: y in Before(c) || y in InOrder(t.left) ==> y in s && s[y].end <= s[t.id].start
    ensures forall y :: y in After(c) || y in InOrder(t.right) ==> y in s && s[t.id].end <= s[y].start
  {
    PlugInOrder(c, t);
    Regroup(Before(c), InOrder(t.left), [t.id], InOrder(t.right), After(c));
    SortedAround(Before(c) + InOrder(t.left), t.id, InOrder(t.right) + After(c), s);
  }

  lemma {:induction false} Regroup(a: seq<Ptr>, l: seq<Ptr>, x: seq<Ptr>, r: seq<Ptr>, b: seq<Ptr>)
    ensures a + (l + x + r) + b == (a + l) + x + (r + b)
  {
  }

  lemma {:induction false} SortedAround(a: seq<Ptr>, x: Ptr, b: seq<Ptr>, s: Space)
    requires Sorted(a + [x] + b, s)
    ensures x in s
    ensures forall y :: y in a ==> y in s && s[y].end <= s[x].start
    ensures forall y :: y in b ==> y in s && s[x].end <= s[y].start
  {
    var o := a + [x] + b;
    assert o[|a|] == x;
    forall y | y in a
      ensures y in s && s[y].end <= s[x].start
    {
      var i :| 0 <= i < |a| && a[i] == y;
      assert o[i] == y;
    }
    forall y | y in b
      ensures y in s && s[x].end <= s[y].start
    {
      var i :| 0 <= i < |b| && b[i] == y;
      assert o[|a| + 1 + i] == y;
    }
  }

  /** At an empty link every range lies on one side. */
  lemma {:induction false} AtLeaf(c: Ctx, s: Space)
    requires Sorted(InOrder(Plug(c, Leaf)), s)
    ensures forall y :: y in s <==> y in Before(c) || y in After(c)
  {
    PlugInOrder(c, Leaf);
    assert InOrder(Plug(c, Leaf)) == Before(c) + After(c);
  }

  /** A new range put between those below it and those above it. */
  lemma {:induction false} InsertSorted(c: Ctx, s: Space, x: Ptr, r: VmRange)
    requires Sorted(InOrder(Plug(c, Leaf)), s) && x !in s && r.start < r.end
    requires forall y :: y in Before(c) && y in s ==> s[y].end <= r.start
    requires forall y :: y in After(c) && y in s ==> r.end <= s[y].start
    ensures Sorted(Before(c) + [x] + After(c), s[x := r])
  {
    PlugInOrder(c, Leaf);
    assert InOrder(Plug(c, Leaf)) == Before(c) + After(c);
    SortedInsert(Before(c), x, After(c), s, r);
  }

  lemma {:induction false} SortedInsert(a: seq<Ptr>, x: Ptr, b: seq<Ptr>, s: Space, r: VmRange)
    requires Sorted(a + b, s) && x !in s && r.start < r.end
    requires forall y :: y in a && y in s ==> s[y].end <= r.start
    requires forall y :: y in b && y in s ==> r.end <= s[y].start
    ensures Sorted(a + [x] + b, s[x := r])
  {
    var s', o := s[x := r], a + [x] + b;
    forall i, j | 0 <= i < j < |o|
      ensures s'[o[i]].end <= s'[o[j]].start
    {
      if i != |a| && j != |a| {
        var i', j' := if i < |a| then i else i - 1, if j < |a| then j else j - 1;
        assert (a + b)[i'] == o[i] && (a + b)[j'] == o[j];
      } else if i == |a| {
        assert o[j] in b && o[j] in a + b;
      } else {
        assert o[i] in a && o[i] in a + b;
      }
    }
    InsertMembers(a, x, b);
  }

  lemma {:induction false} InsertMembers(a: seq<Ptr>, x: Ptr, b: seq<Ptr>)
    ensures forall y :: y in a + [x] + b <==> y in a + b || y == x
  {
  }

  /** Taking one range out keeps the others sorted. */
  lemma {:induction false} EraseSorted(order: seq<Ptr>, s: Space, x: Ptr)
    requires Sorted(order, s) && x in s
    ensures Sorted(Without(order, x), s - {x})
  {
    SortedNoDup(order, s);
    var a, b := SplitAround(order, x);
    SortedErase(a, x, b, s);
  }

  lemma {:induction false} SortedErase(a: seq<Ptr>, x: Ptr, b: seq<Ptr>, s: Space)
    requires Sorted(a + [x] + b, s) && x !in a && x !in b
    ensures Sorted(a + b, s - {x})
  {
    var o := a + [x] + b;
    InsertMembers(a, x, b);
    forall j, k | 0 <= j < k < |a + b|
      ensures (a + b)[j] in s && (a + b)[k] in s && s[(a + b)[j]].end <= s[(a + b)[k]].start
    {
      ErasedAt(a, x, b, j);
      ErasedAt(a, x, b, k);
      var j', k' := if j < |a| then j else j + 1, if k < |a| then k else k + 1;
      assert o[j'] in o && o[k'] in o && j' < k';
    }
  }

  lemma {:induction false} ErasedAt(a: seq<Ptr>, x: Ptr, b: seq<Ptr>, j: nat)
    requires j < |a + b|
    ensures (a + b)[j] == (a + [x] + b)[if j < |a| then j else j + 1]
  {
  }

  /** Changing one range so that it still fits between its neighbours. */
  lemma {:induction false} ResizeSorted(order: seq<Ptr>, s: Space, x: Ptr, r: VmRange)
    requires Sorted(order, s) && x in s && r.start < r.end
    requires forall y :: y in s && y != x ==> if s[y].end <= s[x].start then s[y].end <= r.start else r.end <= s[y].start
    ensures Sorted(order, s[x := r])
  {
    var s' := s[x := r];
    SortedDisjoint(order, s);
    forall i, j | 0 <= i < j < |order|
      ensures s'[order[i]].end <= s'[order[j]].start
    {
      assert order[i] in s && order[j] in s;
    }
  }

  /** The range after x in tree order is the next one by address. */
  lemma {:induction false} RepaintSorted(order: seq<Ptr>, s: Space, x: Ptr, flag: Flags)
    requires Sorted(order, s) && x in s
    ensures Sorted(order, s[x := s[x].(flag := flag)])
  {
    var s' := s[x := s[x].(flag := flag)];
    forall i, j | 0 <= i < j < |order|
      ensures s'[order[i]].end <= s'[order[j]].start
    {
      assert order[i] in s && order[j] in s && s[order[i]].end <= s[order[j]].start;
    }
  }

  lemma {:induction false} NextByAddress(order: seq<Ptr>, s: Space, x: Ptr, y: Ptr)
    requires Sorted(order, s) && x in s && Follows(order, x, y) && NULL !in s
    ensures y != NULL ==> y in s && s[x].end <= s[y].start
    ensures forall z :: z in s && s[x].end <= s[z].start ==> y != NULL && y in s && s[y].start <= s[z].start
  {
    var i :| 0 <= i < |order| && order[i] == x;
    if i + 1 < |order| {
      assert order[i + 1] in order;
    }
    forall z | z in s && s[x].end <= s[z].start
      ensures y != NULL && y in s && s[y].start <= s[z].start
    {
      var j :| 0 <= j < |order| && order[j] == z;
      assert j > i;
      assert j == i + 1 || s[order[i + 1]].end <= s[order[j]].start;
    }
  }

  lemma {:induction false} PrevByAddress(order: seq<Ptr>, s: Space, x: Ptr, y: Ptr)
    requires Sorted(order, s) && x in s && Precedes(order, x, y) && NULL !in s
    ensures y != NULL ==> y in s && s[y].end <= s[x].start
    ensures forall z :: z in s && s[z].end <= s[x].start ==> y != NULL && y in s && s[z].end <= s[y].end
  {
    var i :| 0 <= i < |order| && order[i] == x;
    if i > 0 {
      assert order[i - 1] in order;
    }
    forall z | z in s && s[z].end <= s[x].start
      ensures y != NULL && y in s && s[z].end <= s[y].end
    {
      var j :| 0 <= j < |order| && order[j] == z;
      assert j < i;
      assert j == i - 1 || s[order[j]].end <= s[order[i - 1]].start;
    }
  }

  /** Everything before the link lies at or below `low`, everything after it at or above `high`. */
  ghost predicate Between(c: Ctx, s: Space, low: int, high: int) {
    && (forall y :: y in Before(c) ==> y in s && s[y].end <= low)
    && (forall y :: y in After(c) ==> y in s && high <= s[y].start)
  }

  lemma {:induction false} StepBetween(c: Ctx, t: Tree, s: Space, low: int, high: int)
    requires t.Node? && Sorted(InOrder(Plug(c, t)), s) && t.id in s && Between(c, s, low, high)
    ensures high <= s[t.id].start ==> Between(Frame(false, t.id, t.black, t.right, c), s, low, high)
    ensures s[t.id].end <= low ==> Between(Frame(true, t.id, t.black, t.left, c), s, low, high)
  {
    Around(c, t, s);
  }

  /** While looking for the lowest range that meets [start, end): none before the link does, and `found`
      is the lowest one after it. */
  ghost predicate Narrowed(c: Ctx, s: Space, start: int, end: int, found: Ptr) {
    && (forall y :: y in Before(c) ==> y in s && !Overlaps(s[y], start, end))
    && (forall y :: y in After(c) ==> y in s)
    && (found == NULL ==> forall y :: y in After(c) ==> !Overlaps(s[y], start, end))
    && (found != NULL ==> found in After(c) && Overlaps(s[found], start, end))
    && (found != NULL ==> forall y :: y in After(c) && Overlaps(s[y], start, end) ==> s[found].start <= s[y].start)
  }

  lemma {:induction false} StepNarrowed(c: Ctx, t: Tree, s: Space, start: int, end: int, found: Ptr)
    requires t.Node? && Sorted(InOrder(Plug(c, t)), s) && t.id in s && Narrowed(c, s, start, end, found) && start < end && t.id != NULL
    ensures end <= s[t.id].start ==> Narrowed(Frame(false, t.id, t.black, t.right, c), s, start, end, found)
    ensures s[t.id].end <= start ==> Narrowed(Frame(true, t.id, t.black, t.left, c), s, start, end, found)
    ensures start < s[t.id].start < end ==> Narrowed(Frame(false, t.id, t.black, t.right, c), s, start, end, t.id)
  {
    Around(c, t, s);
  }
}
