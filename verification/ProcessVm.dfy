/** struct process_vm: the range tree, the lookup cache and the operations of kernel/process.c on them,
    with mprotect and the free-space search of kernel/syscall.c. */
module ProcessVm {
  import opened Seqs
  import opened RbTree
  import opened RbUnlink
  import R = RbRoot
  import opened VmSpace
  import opened VmOrder
  import opened VmCarve
  import opened VmProtect

  const EPERM: int := 1
  const ENOENT: int := 2
  const ENOMEM: int := 12
  const EACCES: int := 13
  const EFAULT: int := 14
  const EINVAL: int := 22

  const VM_RANGE_CACHE_SIZE: nat := 4
  const PAGE_SIZE: int := 4096

  /** r is the lowest range that meets [start, end), NULL when there is none. */
  ghost predicate Lowest(s: Space, start: int, end: int, r: Ptr) {
    if r == NULL then forall y :: y in s ==> !Overlaps(s[y], start, end)
    else r in s && Overlaps(s[r], start, end) && forall y :: y in s && Overlaps(s[y], start, end) ==> s[r].start <= s[y].start
  }

  /** Every cache slot that named x names y now, and no other slot has changed. */
  ghost predicate Replaced(c: seq<Ptr>, c': seq<Ptr>, x: Ptr, y: Ptr) {
    |c'| == |c| && forall i :: 0 <= i < |c| ==> c'[i] == if c[i] == x then y else c[i]
  }

  /** kmalloc: an address that no live range has. */
  method Fresh(used: set<Ptr>) returns (p: Ptr)
    ensures p != NULL && p !in used
  {
    p := 1;
    var left := used;
    while left != {}
      invariant left <= used && p != NULL && forall x :: x in used && x !in left ==> x < p
      decreases left
    {
      var x :| x in left;
      left := left - {x};
      if p <= x {
        p := x + 1;
      }
    }
  }

  class ProcessVm {
    const rb: R.RbRoot
    var ranges: Space
    var cache: seq<Ptr>
    var cacheInd: nat
    var refs: map<Memobj, int>
    ghost var others: map<Memobj, int>
    /** What the coming page-table operations return; once used up they all succeed. */
    var ptResults: seq<int>
    var use1gb: bool
    var userStart: int
    var userEnd: int
    var mapEnd: int

    /** The tree holds exactly the ranges, by ascending address, and no cache slot names a freed one. */
    ghost predicate TreeValid()
      reads this, rb
    {
      && rb.Valid() && Sorted(InOrder(rb.tree), ranges) && NULL !in ranges
      && |cache| == VM_RANGE_CACHE_SIZE && cacheInd < VM_RANGE_CACHE_SIZE
      && forall i :: 0 <= i < |cache| && cache[i] != NULL ==> cache[i] in ranges
    }

    ghost predicate Valid()
      reads this, rb
    {
      TreeValid() && 0 !in refs && RefsMatch(ranges, refs, others)
    }

    constructor (start: int, end: int, huge: bool, objs: map<Memobj, int>)
      requires 0 !in objs
      ensures Valid() && ranges == map[] && userStart == start && userEnd == end && mapEnd == start && others == objs
      ensures fresh(rb) && ptResults == []
    {
      rb := new R.RbRoot();
      ranges, cache, cacheInd := map[], [NULL, NULL, NULL, NULL], 0;
      refs, others, ptResults, use1gb := objs, objs, [], huge;
      userStart, userEnd, mapEnd := start, end, start;
      new;
      assert forall m :: m in refs ==> Users(ranges, m) == {};
    }

    method PageTableOp() returns (error: int)
      modifies this`ptResults
      ensures old(ptResults) == [] ==> error == 0 && ptResults == []
      ensures error == NextResult(old(ptResults))
    {
      error := 0;
      if ptResults != [] {
        error := ptResults[0];
        ptResults := ptResults[1..];
      }
    }

    /** The walk down the tree in vm_range_insert. */
    method FindLink(r: VmRange) returns (error: int, parent: Ptr, side: bool, ghost c: Ctx)
      requires TreeValid() && r.start < r.end
      ensures error == 0 || (error == -EFAULT && exists y :: y in ranges && Overlaps(ranges[y], r.start, r.end))
      ensures error == 0 ==> rb.tree == Plug(c, Leaf) && parent == Parent(c, NULL) && (c.Frame? ==> side == c.side)
      ensures error == 0 ==> Between(c, ranges, r.start, r.end)
    {
      c := Top;
      ghost var t := rb.tree;
      var node := rb.root;
      error, parent, side := 0, NULL, false;
      while node != NULL
        invariant rb.tree == Plug(c, t) && node == Root(t) && parent == Parent(c, NULL) && (c.Frame? ==> side == c.side)
        invariant Between(c, ranges, r.start, r.end)
        decreases t
      {
        RepPlug(rb.h, c, t, rb.root, NULL);
        Around(c, t, ranges);
        StepBetween(c, t, ranges, r.start, r.end);
        var range := ranges[node];
        parent := node;
        if r.end <= range.start {
          node, side := rb.h[node].left, false;
          c, t := Frame(false, t.id, t.black, t.right, c), t.left;
        } else if r.start >= range.end {
          node, side := rb.h[node].right, true;
          c, t := Frame(true, t.id, t.black, t.left, c), t.right;
        } else {
          return -EFAULT, parent, side, c;
        }
      }
      RepPlug(rb.h, c, t, rb.root, NULL);
    }

    /** vm_range_insert */
    method VmRangeInsert(x: Ptr, r: VmRange) returns (error: int)
      requires TreeValid() && x != NULL && x !in ranges && r.start < r.end
      modifies this`ranges, rb
      ensures TreeValid()
      ensures error == 0 <==> forall y :: y in old(ranges) ==> !Overlaps(old(ranges)[y], r.start, r.end)
      ensures error == 0 ==> ranges == old(ranges)[x := r]
      ensures error != 0 ==> error == -EFAULT && ranges == old(ranges)
    {
      var parent, side;
      ghost var c;
      error, parent, side, c := FindLink(r);
      if error != 0 {
        return;
      }
      AtLeaf(c, ranges);
      InsertSorted(c, ranges, x, r);
      InOrderIds(rb.tree);
      rb.LinkAndColor(x, parent, side, c);
      ranges := ranges[x := r];
    }

    /** The walk down the tree in lookup_process_memory_range. */
    method TreeLookup(start: int, end: int) returns (found: Ptr)
      requires TreeValid() && start < end
      ensures Lowest(ranges, start, end, found)
    {
      ghost var c, t := Top, rb.tree;
      var node := rb.root;
      found := NULL;
      while node != NULL
        invariant rb.tree == Plug(c, t) && node == Root(t) && Narrowed(c, ranges, start, end, found)
        decreases t
      {
        RepPlug(rb.h, c, t, rb.root, NULL);
        Around(c, t, ranges);
        StepNarrowed(c, t, ranges, start, end, found);
        var range := ranges[node];
        if end <= range.start {
          node := rb.h[node].left;
          c, t := Frame(false, t.id, t.black, t.right, c), t.left;
        } else if start >= range.end {
          node := rb.h[node].right;
          c, t := Frame(true, t.id, t.black, t.left, c), t.right;
        } else if start < range.start {
          found := node;
          node := rb.h[node].left;
          c, t := Frame(false, t.id, t.black, t.right, c), t.left;
        } else {
          found := node;
          CoversStart(c, t, ranges, start, end);
          return;
        }
      }
      RepPlug(rb.h, c, t, rb.root, NULL);
      AtLeaf(c, ranges);
    }

    /** lookup_process_memory_range */
    method Lookup(start: int, end: int) returns (found: Ptr)
      requires TreeValid()
      modifies this`cache, this`cacheInd
      ensures TreeValid()
      ensures end <= start ==> found == NULL
      ensures start < end ==> Lowest(ranges, start, end, found)
    {
      if end <= start {
        return NULL;
      }
      for i := 0 to VM_RANGE_CACHE_SIZE {
        var ci := (i + cacheInd) % VM_RANGE_CACHE_SIZE;
        if cache[ci] != NULL {
          if ranges[cache[ci]].start <= start && ranges[cache[ci]].end >= end {
            SortedDisjoint(InOrder(rb.tree), ranges);
            return cache[ci];
          }
        }
      }
      found := TreeLookup(start, end);
      if found != NULL && end > ranges[found].start {
        cacheInd := (cacheInd - 1 + VM_RANGE_CACHE_SIZE) % VM_RANGE_CACHE_SIZE;
        cache := cache[cacheInd := found];
      }
    }

    /** memobj_ref and memobj_unref, where there is an object. */
    method CountRef(m: Memobj, d: int)
      requires m != 0 ==> m in refs
      modifies this`refs
      ensures refs == Adjust(old(refs), m, d)
    {
      if m != 0 {
        refs := refs[m := refs[m] + d];
      }
    }

    /** split_process_memory_range: range keeps what lies below addr, a new range gets the rest. */
    method Split(range: Ptr, addr: int) returns (error: int, newrange: Ptr)
      requires TreeValid() && range in ranges && ranges[range].start < addr < ranges[range].end && Counted(refs, ranges[range])
      modifies this`ranges, this`refs, this`ptResults, rb
      ensures TreeValid()
      ensures error == 0 ==> newrange != NULL && newrange !in old(ranges) && ranges == Cut(old(ranges), range, addr, newrange)
      ensures error == 0 ==> refs == Adjust(old(refs), old(ranges)[range].memobj, 1)
      ensures error != 0 ==> ranges == old(ranges) && refs == old(refs)
      ensures old(ptResults) == [] ==> error == 0 && ptResults == []
    {
      newrange := NULL;
      error := PageTableOp();
      if error != 0 {
        return;
      }
      newrange := Fresh(ranges.Keys);
      var r := ranges[range];
      var upper := VmRange(addr, r.end, r.flag, r.memobj, if r.memobj == 0 then 0 else r.objoff + (addr - r.start));
      CutReady(InOrder(rb.tree), ranges, range, addr, newrange, upper);
      CountRef(r.memobj, 1);
      ranges := ranges[range := r.(end := addr)];
      error := VmRangeInsert(newrange, upper);
    }

    /** join_process_memory_range: surviving takes over the addresses of merging, if nothing differs. */
    method Join(surviving: Ptr, merging: Ptr) returns (error: int)
      requires TreeValid() && surviving in ranges && merging in ranges && surviving != merging && Counted(refs, ranges[merging])
      modifies this`ranges, this`refs, this`cache, rb
      ensures TreeValid()
      ensures error == 0 <==> Joinable(old(ranges)[surviving], old(ranges)[merging])
      ensures error == 0 ==> ranges == Glue(old(ranges), surviving, merging)
      ensures error == 0 ==> refs == Adjust(old(refs), old(ranges)[merging].memobj, -1)
      ensures error == 0 ==> Replaced(old(cache), cache, merging, surviving)
      ensures error != 0 ==> error == -EINVAL && ranges == old(ranges) && refs == old(refs) && cache == old(cache)
    {
      var s, m := ranges[surviving], ranges[merging];
      if s.end != m.start || s.flag != m.flag || s.memobj != m.memobj {
        return -EINVAL;
      }
      if s.memobj != 0 && s.objoff + (s.end - s.start) != m.objoff {
        return -EINVAL;
      }
      CountRef(m.memobj, -1);
      TakeOver(surviving, merging);
      error := 0;
    }

    /** The part of join that changes the tree: merging is erased and surviving takes its end. */
    method TakeOver(surviving: Ptr, merging: Ptr)
      requires TreeValid() && surviving in ranges && merging in ranges && surviving != merging && ranges[surviving].end == ranges[merging].start
      modifies this`ranges, this`cache, rb
      ensures TreeValid() && ranges == Glue(old(ranges), surviving, merging) && Replaced(old(cache), cache, merging, surviving)
    {
      JoinSorted(InOrder(rb.tree), ranges, surviving, merging);
      Detach(merging, surviving);
      ranges := ranges[surviving := ranges[surviving].(end := ranges[merging].end)] - {merging};
    }

    /** What join and free have in common: rb_erase, then the loop over the cache slots. */
    method Detach(gone: Ptr, instead: Ptr)
      requires TreeValid() && gone in ranges && instead != gone && (instead != NULL ==> instead in ranges)
      modifies this`cache, rb
      ensures rb.Valid() && InOrder(rb.tree) == Without(InOrder(old(rb.tree)), gone)
      ensures |cache| == VM_RANGE_CACHE_SIZE && Replaced(old(cache), cache, gone, instead)
      ensures forall i :: 0 <= i < |cache| && cache[i] != NULL ==> cache[i] in ranges && cache[i] != gone
    {
      InOrderIds(rb.tree);
      rb.Erase(gone);
      Uncache(gone, instead);
    }

    /** The loop over the cache slots when a range goes away. */
    method Uncache(gone: Ptr, instead: Ptr)
      requires |cache| == VM_RANGE_CACHE_SIZE && gone != NULL && instead != gone
      requires forall i :: 0 <= i < |cache| && cache[i] != NULL ==> cache[i] in ranges
      requires instead != NULL ==> instead in ranges
      modifies this`cache
      ensures |cache| == VM_RANGE_CACHE_SIZE && Replaced(old(cache), cache, gone, instead)
      ensures forall i :: 0 <= i < |cache| && cache[i] != NULL ==> cache[i] in ranges && cache[i] != gone
    {
      for i := 0 to VM_RANGE_CACHE_SIZE
        invariant |cache| == VM_RANGE_CACHE_SIZE
        invariant forall j :: 0 <= j < i ==> cache[j] == if old(cache)[j] == gone then instead else old(cache)[j]
        invariant forall j :: i <= j < |cache| ==> cache[j] == old(cache)[j]
      {
        if cache[i] == gone {
          cache := cache[i := instead];
        }
      }
    }

    /** next_process_memory_range and previous_process_memory_range */
    method NextRange(range: Ptr) returns (next: Ptr)
      requires TreeValid() && range in ranges
      ensures NextAbove(ranges, range, next)
    {
      InOrderIds(rb.tree);
      RepIds(rb.h, rb.tree, NULL, range);
      next := rb.Next(range);
      NextByAddress(InOrder(rb.tree), ranges, range, next);
    }

    method PreviousRange(range: Ptr) returns (prev: Ptr)
      requires TreeValid() && range in ranges
      ensures NextBelow(ranges, range, prev)
    {
      InOrderIds(rb.tree);
      RepIds(rb.h, rb.tree, NULL, range);
      prev := rb.Prev(range);
      PrevByAddress(InOrder(rb.tree), ranges, range, prev);
    }

    /** The window [wstart, wend) that free_process_memory_range clears in the page table. */
    method FreeWindow(range: Ptr) returns (wstart: int, wend: int)
      requires TreeValid() && range in ranges
      ensures wstart <= ranges[range].start && ranges[range].end <= wend
      ensures forall y :: y in ranges && y != range ==> !Overlaps(ranges[y], wstart, wend)
      ensures Widest(ranges, range, wstart, wend, use1gb)
    {
      var r := ranges[range];
      wstart, wend := r.start, r.end;
      SortedDisjoint(InOrder(rb.tree), ranges);
      if !(r.flag.remote || r.flag.ioNocache || r.flag.reserved) {
        var neighbor := PreviousRange(range);
        wstart := WidenDown(r.start, if neighbor == NULL then None else Some(ranges[neighbor].end), use1gb);
        ghost var below := neighbor;
        neighbor := NextRange(range);
        wend := WidenUp(r.end, if neighbor == NULL then None else Some(ranges[neighbor].start), use1gb);
        WindowClear(ranges, range, below, neighbor, wstart, wend);
        WidestLow(ranges, range, below, use1gb);
        WidestHigh(ranges, range, neighbor, use1gb);
      } else {
        forall y | y in ranges && y != range ensures !Overlaps(ranges[y], wstart, wend) {
          assert Clear(ranges, range, y);
        }
      }
    }

    /** free_process_memory_range */
    method Free(range: Ptr) returns (wstart: int, wend: int)
      requires TreeValid() && range in ranges && Counted(refs, ranges[range])
      modifies this`ranges, this`refs, this`cache, this`ptResults, rb
      ensures TreeValid() && ranges == old(ranges) - {range}
      ensures refs == Adjust(old(refs), old(ranges)[range].memobj, -1)
      ensures wstart <= old(ranges)[range].start && old(ranges)[range].end <= wend
      ensures forall y :: y in ranges ==> !Overlaps(ranges[y], wstart, wend)
      ensures Widest(old(ranges), range, wstart, wend, use1gb)
      ensures old(ptResults) == [] ==> ptResults == []
    {
      wstart, wend := FreeWindow(range);
      var ignored := PageTableOp();
      CountRef(ranges[range].memobj, -1);
      DropRange(range);
    }

    /** The range leaves the tree and the cache. */
    method DropRange(range: Ptr)
      requires TreeValid() && range in ranges
      modifies this`ranges, this`cache, rb
      ensures TreeValid() && ranges == old(ranges) - {range}
    {
      ghost var order0, ranges0 := InOrder(rb.tree), ranges;
      Detach(range, NULL);
      EraseSorted(order0, ranges0, range);
      ranges := ranges - {range};
    }

    /** Cuts range down to its part inside [start, end), as remove_process_memory_range and mprotect begin. */
    method Isolate(range0: Ptr, start: int, end: int) returns (error: int, range: Ptr)
      requires Valid() && range0 in ranges && Overlaps(ranges[range0], start, end) && start < end
      modifies this`ranges, this`refs, this`ptResults, rb
      ensures Valid() && Trim(old(ranges), range0, ranges, range)
      ensures error == 0 ==> ranges[range].start == if old(ranges)[range0].start < start then start else old(ranges)[range0].start
      ensures error == 0 ==> ranges[range].end == if end < old(ranges)[range0].end then end else old(ranges)[range0].end
      ensures old(ptResults) == [] ==> error == 0 && ptResults == []
    {
      ghost var s0 := ranges;
      SortedDisjoint(InOrder(rb.tree), ranges);
      TrimStart(s0, range0);
      error, range := 0, range0;
      if ranges[range].start < start {
        ghost var s1, refs1 := ranges, refs;
        var upper;
        error, upper := Split(range, start);
        if error != 0 {
          return;
        }
        TrimUpper(s0, range0, s1, range, start, upper);
        CutRefs(s1, range, start, upper, refs1, others);
        range := upper;
      }
      if end < ranges[range].end {
        ghost var s1, refs1 := ranges, refs;
        var upper;
        error, upper := Split(range, end);
        if error != 0 {
          return;
        }
        TrimLower(s0, range0, s1, range, end, upper);
        CutRefs(s1, range, end, upper, refs1, others);
      }
    }

    /** One round of the loop in remove_process_memory_range. */
    method CutOut(range0: Ptr, start: int, end: int) returns (error: int)
      requires Valid() && range0 in ranges && Overlaps(ranges[range0], start, end) && start < end
      modifies this`ranges, this`refs, this`cache, this`ptResults, rb
      ensures Valid()
      ensures error == 0 ==> Carved(old(ranges), range0, start, end, ranges)
      ensures error != 0 ==> forall a :: At(ranges, a) == At(old(ranges), a)
      ensures old(ptResults) == [] ==> error == 0 && ptResults == []
    {
      ghost var s0 := ranges;
      SortedDisjoint(InOrder(rb.tree), ranges);
      var range;
      error, range := Isolate(range0, start, end);
      if error != 0 {
        return;
      }
      ghost var s1 := ranges;
      CarveDone(s0, range0, s1, range, start, end);
      FreeCounted(range);
    }

    /** free_process_memory_range keeps the reference counts in step. */
    method FreeCounted(range: Ptr)
      requires Valid() && range in ranges
      modifies this`ranges, this`refs, this`cache, this`ptResults, rb
      ensures Valid() && ranges == old(ranges) - {range}
      ensures old(ptResults) == [] ==> ptResults == []
    {
      RefsDrop(ranges, range, refs, others);
      var wstart, wend := Free(range);
    }

    /** remove_process_memory_range */
    method Remove(start: int, end: int) returns (error: int, roFreed: bool)
      requires Valid()
      modifies this`ranges, this`refs, this`cache, this`cacheInd, this`ptResults, rb
      ensures Valid()
      ensures PartlyRemoved(old(ranges), ranges, start, end)
      ensures error == 0 ==> forall a :: At(ranges, a) == if start <= a < end then None else At(old(ranges), a)
      ensures error == 0 ==> (roFreed <==> ReadOnlyGone(old(ranges), ranges))
      ensures old(ptResults) == [] ==> error == 0
    {
      ghost var s0 := ranges;
      error, roFreed := 0, false;
      var next := Lookup(start, end);
      while next != NULL && ranges[next].start < end
        invariant Valid() && PartlyRemoved(s0, ranges, start, end) && (start < end ==> Ahead(ranges, start, end, next))
        invariant (roFreed <==> ReadOnlyGone(s0, ranges)) && (next != NULL ==> start < end)
        invariant error == 0 && (old(ptResults) == [] ==> ptResults == [])
        decreases if next == NULL then 0 else end - ranges[next].start
      {
        var range := next;
        next := NextRange(range);
        ghost var s1 := ranges;
        SortedDisjoint(InOrder(rb.tree), ranges);
        var flag := ranges[range].flag;
        error := CutOut(range, start, end);
        if error != 0 {
          return;
        }
        CarveReadOnly(s0, s1, range, start, end, ranges);
        StillAhead(s1, range, next, start, end, ranges);
        if !flag.prot.write {
          roFreed := true;
        }
      }
      if start < end {
        AllRemoved(s0, ranges, start, end);
      }
    }

    /** change_prot_process_memory_range */
    method ChangeProt(range: Ptr, prot: Prot) returns (error: int)
      requires Valid() && range in ranges
      modifies this`ranges, this`ptResults
      ensures Valid()
      ensures error == 0 ==> range in ranges && ranges == old(ranges)[range := old(ranges)[range].(flag := ranges[range].flag)]
      ensures error == 0 ==> Reflagged(old(ranges)[range].flag, ranges[range].flag, prot)
      ensures error != 0 ==> ranges == old(ranges)
      ensures old(ptResults) == [] ==> error == 0 && ptResults == []
    {
      var newflag := WithProt(ranges[range].flag, prot);
      if ranges[range].flag == newflag {
        return 0;
      }
      error := PageTableOp();
      if error != 0 && error != -ENOENT {
        return;
      }
      RepaintSorted(InOrder(rb.tree), ranges, range, newflag);
      RefsKeep(ranges, range, ranges[range].(flag := newflag), refs, others);
      ranges := ranges[range := ranges[range].(flag := newflag)];
      error := 0;
    }

    /** One round of the mprotect loop: protects the rest of the range at addr, up to end. */
    method ProtectPiece(range0: Ptr, addr: int, end: int, prot: Prot, ghost s0: Space, ghost start: int) returns (error: int, range: Ptr)
      requires Valid() && start <= addr < end && range0 in ranges && Covers(ranges[range0], addr)
      requires ProtectedUpTo(s0, ranges, start, addr, prot)
      requires Allowed(ranges[range0].flag, prot) && Changeable(ranges[range0].flag)
      modifies this`ranges, this`refs, this`ptResults, rb
      ensures Valid()
      ensures error == 0 ==> range in ranges && range != NULL && ranges[range].start == addr && addr < ranges[range].end <= end
      ensures error == 0 ==> forall y :: y in old(ranges) && y != range0 ==> y in ranges && y != range && ranges[y] == old(ranges)[y]
      ensures ProtectedUpTo(s0, ranges, start, if error == 0 then ranges[range].end else addr, prot)
      ensures old(ptResults) == [] ==> error == 0 && ptResults == []
    {
      ghost var r0 := ranges;
      SortedDisjoint(InOrder(rb.tree), ranges);
      error, range := Isolate(range0, addr, end);
      SameProtected(s0, r0, ranges, start, addr, prot);
      if error != 0 {
        return;
      }
      error := PaintPiece(range, addr, prot, s0, start);
    }

    /** The piece that starts at addr gets its new protection. */
    method PaintPiece(range: Ptr, addr: int, prot: Prot, ghost s0: Space, ghost start: int) returns (error: int)
      requires Valid() && range in ranges && start <= addr && ranges[range].start == addr
      requires ProtectedUpTo(s0, ranges, start, addr, prot) && Allowed(ranges[range].flag, prot) && Changeable(ranges[range].flag)
      modifies this`ranges, this`ptResults
      ensures Valid() && ranges.Keys == old(ranges).Keys && forall y :: y in ranges && y != range ==> ranges[y] == old(ranges)[y]
      ensures ranges[range].start == addr && ranges[range].end == old(ranges)[range].end
      ensures ProtectedUpTo(s0, ranges, start, if error == 0 then ranges[range].end else addr, prot)
      ensures old(ptResults) == [] ==> error == 0 && ptResults == []
    {
      SortedDisjoint(InOrder(rb.tree), ranges);
      error := ChangeProt(range, prot);
      if error == 0 {
        ExtendProtected(s0, old(ranges), range, start, addr, prot, ranges[range].flag);
      }
    }

    /** The join at the end of a round. */
    method Absorb(changed: Ptr, range: Ptr) returns (last: Ptr)
      requires Valid() && range in ranges && (changed != NULL ==> changed in ranges && changed != range && ranges[changed].end == ranges[range].start)
      modifies this`ranges, this`refs, this`cache, rb
      ensures Valid() && last != NULL && last in ranges && ranges[last].end == old(ranges)[range].end
      ensures forall a :: At(ranges, a) == At(old(ranges), a)
    {
      last := range;
      if changed != NULL {
        ghost var s, refs0 := ranges, refs;
        SortedDisjoint(InOrder(rb.tree), ranges);
        var error := Join(changed, range);
        if error == 0 {
          GlueSame(s, changed, range);
          GlueRefs(s, changed, range, refs0, others);
          last := changed;
        }
      }
    }

    /** The checks at the head of a round: which range is at addr, and may it be changed? */
    method PieceAt(changed: Ptr, first: Ptr, addr: int, prot: Prot, ghost s0: Space, ghost start: int) returns (error: int, range: Ptr)
      requires TreeValid() && ProtectedUpTo(s0, ranges, start, addr, prot) && start <= addr
      requires changed == NULL ==> Lowest(ranges, addr, addr + PAGE_SIZE, first)
      requires changed != NULL ==> changed in ranges && ranges[changed].end == addr
      ensures error != 0 ==> !MayProtect(s0, addr, prot) && error == if Denies(s0, addr, prot) then -EACCES else -ENOMEM
      ensures error == 0 ==> range in ranges && Covers(ranges[range], addr) && range != changed
      ensures error == 0 ==> Allowed(ranges[range].flag, prot) && Changeable(ranges[range].flag)
    {
      SortedDisjoint(InOrder(rb.tree), ranges);
      range := first;
      if changed != NULL {
        range := NextRange(changed);
      }
      ScanStep(ranges, changed, range, addr);
      error := 0;
      if range == NULL || addr < ranges[range].start {
        error := -ENOMEM;
      } else if !Allowed(ranges[range].flag, prot) {
        error := -EACCES;
      } else if !Changeable(ranges[range].flag) {
        error := -ENOMEM;
      }
      if error != 0 {
        Refused(s0, ranges, range, start, addr, prot);
      }
    }

    /** One round: the piece at addr is protected and joined to what was done before. */
    method ProtectRound(changed: Ptr, first: Ptr, addr: int, end: int, prot: Prot, ghost s0: Space, ghost start: int)
      returns (error: int, last: Ptr)
      requires Valid() && start <= addr < end && ProtectedUpTo(s0, ranges, start, addr, prot)
      requires changed == NULL ==> Lowest(ranges, addr, addr + PAGE_SIZE, first)
      requires changed != NULL ==> changed in ranges && ranges[changed].end == addr
      modifies this`ranges, this`refs, this`cache, this`ptResults, rb
      ensures Valid()
      ensures error == 0 ==> last != NULL && last in ranges && addr < ranges[last].end <= end
      ensures ProtectedUpTo(s0, ranges, start, if error == 0 then ranges[last].end else addr, prot)
      ensures old(ptResults) == [] ==> ptResults == []
      ensures old(ptResults) == [] && error != 0 ==> !MayProtect(s0, addr, prot) && error == if Denies(s0, addr, prot) then -EACCES else -ENOMEM
    {
      var range;
      last := NULL;
      error, range := PieceAt(changed, first, addr, prot, s0, start);
      if error != 0 {
        return;
      }
      error, range := ProtectPiece(range, addr, end, prot, s0, start);
      if error != 0 {
        return;
      }
      ghost var s1 := ranges;
      last := Absorb(changed, range);
      SameProtected(s0, s1, ranges, start, ranges[last].end, prot);
    }

    /** The loop of mprotect over [start, end). */
    method ProtectLoop(start: int, end: int, prot: Prot) returns (error: int, ghost mid: int)
      requires Valid() && start < end
      modifies this`ranges, this`refs, this`cache, this`cacheInd, this`ptResults, rb
      ensures Valid() && start <= mid <= end && ProtectedUpTo(old(ranges), ranges, start, mid, prot)
      ensures error == 0 ==> mid == end
      ensures old(ptResults) == [] && error != 0 ==>
        mid < end && !MayProtect(old(ranges), mid, prot) && error == if Denies(old(ranges), mid, prot) then -EACCES else -ENOMEM
    {
      ghost var s0 := ranges;
      var first := Lookup(start, start + PAGE_SIZE);
      var changed, addr := NULL, start;
      mid := start;
      error := 0;
      while addr < end
        invariant Valid() && start <= addr <= end && mid == addr && ProtectedUpTo(s0, ranges, start, addr, prot)
        invariant changed == NULL ==> addr == start && Lowest(ranges, start, start + PAGE_SIZE, first)
        invariant changed != NULL ==> changed in ranges && ranges[changed].end == addr
        invariant error == 0 && (old(ptResults) == [] ==> ptResults == [])
        decreases end - addr
      {
        error, changed := ProtectRound(changed, first, addr, end, prot, s0, start);
        if error != 0 {
          return;
        }
        addr := ranges[changed].end;
        mid := addr;
      }
    }

    /** mprotect */
    method Mprotect(start: int, len0: int, prot: Prot) returns (error: int, ghost mid: int)
      requires Valid() && 0 <= len0 < WORD && 0 <= start
      modifies this`ranges, this`refs, this`cache, this`cacheInd, this`ptResults, rb
      ensures Valid() && start <= mid <= start + RoundedLen(len0)
      ensures ProtectedUpTo(old(ranges), ranges, start, mid, prot)
      ensures error == 0 ==> mid == start + RoundedLen(len0)
      ensures old(ptResults) == [] ==>
        (error == 0 <==>
          && start % PAGE_SIZE == 0 && userStart <= start < userEnd && start + RoundedLen(len0) <= userEnd
          && forall a :: start <= a < start + RoundedLen(len0) ==> MayProtect(old(ranges), a, prot))
      ensures old(ptResults) == [] ==> (error == -EINVAL <==> start % PAGE_SIZE != 0)
      ensures old(ptResults) == [] && start % PAGE_SIZE == 0 && userStart <= start < userEnd && start + RoundedLen(len0) <= userEnd && error != 0 ==>
        mid < start + RoundedLen(len0) && error == if Denies(old(ranges), mid, prot) then -EACCES else -ENOMEM
      ensures forall a :: start <= a < mid ==> (Accessible(ranges, a, true) <==> prot.write) && (Accessible(ranges, a, false) <==> prot.read)
    {
      mid := start;
      var len := RoundedLen(len0);
      var end := start + len;
      if start % PAGE_SIZE != 0 {
        return -EINVAL, mid;
      }
      if start < userStart || userEnd <= start || userEnd - start < len {
        return -ENOMEM, mid;
      }
      if len == 0 {
        return 0, mid;
      }
      error, mid := ProtectLoop(start, end, prot);
      forall a | start <= a < mid ensures (Accessible(ranges, a, true) <==> prot.write) && (Accessible(ranges, a, false) <==> prot.read) {
        assert Reprotected(old(ranges), ranges, a, prot);
      }
    }

    /** search_free_space. The first answer is the hint itself, taken as it is. Sums are 64-bit words; the scan finds
        the least slot unless they can wrap. */
    method SearchFreeSpace(len: int, pgsize: int, hint: int) returns (error: int, addr: int)
      requires TreeValid() && 0 <= len < WORD && 0 < pgsize && 0 <= mapEnd
      modifies this`cache, this`cacheInd, this`mapEnd
      ensures TreeValid()
      ensures hint != 0 && Unmapped(ranges, hint, Wrap64(hint + len)) ==> error == 0 && addr == hint && mapEnd == old(mapEnd)
      ensures hint == 0 || !Unmapped(ranges, hint, Wrap64(hint + len)) ==>
        && (error == 0 || error == -ENOMEM)
        && (error == 0 ==> Slot(ranges, len, pgsize, old(mapEnd), userEnd, addr) && mapEnd == Wrap64(addr + len))
        && (error == 0 ==> NoneBelow(ranges, len, pgsize, old(mapEnd), userEnd, addr))
        && (error != 0 ==> mapEnd == old(mapEnd) && NoneBelow(ranges, len, pgsize, mapEnd, userEnd, userEnd))
    {
      addr := hint;
      if addr != 0 {
        var free := IsUnmapped(addr, Wrap64(addr + len));
        if free {
          return 0, addr;
        }
      }
      var at;
      error, at := ScanFreeSpace(len, pgsize);
      if error == 0 {
        mapEnd := Wrap64(at + len);
        addr := at;
      }
    }

    method IsUnmapped(start: int, end: int) returns (free: bool)
      requires TreeValid()
      modifies this`cache, this`cacheInd
      ensures TreeValid() && (free <==> Unmapped(ranges, start, end))
    {
      var range := Lookup(start, end);
      LowestUnmapped(InOrder(rb.tree), ranges, start, end, range);
      free := range == NULL;
    }

    /** The first-fit scan of search_free_space, from map_end on. */
    method ScanFreeSpace(len: int, pgsize: int) returns (error: int, at: int)
      requires TreeValid() && 0 <= len < WORD && 0 < pgsize && 0 <= mapEnd
      modifies this`cache, this`cacheInd
      ensures TreeValid() && (error == 0 || error == -ENOMEM)
      ensures error == 0 ==> Slot(ranges, len, pgsize, mapEnd, userEnd, at)
      ensures error == 0 ==> NoneBelow(ranges, len, pgsize, mapEnd, userEnd, at)
      ensures error != 0 ==> NoneBelow(ranges, len, pgsize, mapEnd, userEnd, userEnd)
    {
      at := mapEnd;
      while true
        invariant TreeValid() && mapEnd <= at
        invariant NoneBelow(ranges, len, pgsize, mapEnd, userEnd, at)
        decreases userEnd - at
      {
        AlignScan(ranges, len, pgsize, mapEnd, userEnd, at);
        at := AlignUp(at, pgsize);
        if userEnd <= at || GuardRejects(userEnd, len, at) {
          RejectScan(ranges, len, pgsize, mapEnd, userEnd, at);
          return -ENOMEM, at;
        }
        var range := Lookup(at, Wrap64(at + len));
        LowestUnmapped(InOrder(rb.tree), ranges, at, Wrap64(at + len), range);
        if range == NULL {
          return 0, at;
        }
        SkipRange(ranges, range, len, pgsize, mapEnd, userEnd, at);
        at := ranges[range].end;
      }
    }

    /** access_ok: may the caller read (or write) the len bytes at addr? */
    method AccessOk(write: bool, addr: int, len: int) returns (error: int, ghost bad: int)
      requires TreeValid() && 0 <= len
      modifies this`cache, this`cacheInd
      ensures TreeValid()
      ensures error == 0 <==> len > 0 && forall a :: addr <= a < addr + len ==> Accessible(ranges, a, write)
      ensures error != 0 && len > 0 ==> FirstBad(ranges, addr, addr + len, write, bad)
      ensures error != 0 ==> error == if len > 0 && Mapped(ranges, bad) then -EACCES else -EFAULT
    {
      bad := addr;
      var range := Lookup(addr, addr + len);
      SortedDisjoint(InOrder(rb.tree), ranges);
      if range == NULL || ranges[range].start > addr {
        if len > 0 {
          NotCovered(ranges, range, addr, addr + len);
          assert !Accessible(ranges, addr, write);
        }
        return -EFAULT, bad;
      }
      error, bad := AccessFrom(range, write, addr, len);
    }

    /** The loop of access_ok, from the range that covers addr. */
    method AccessFrom(range0: Ptr, write: bool, addr: int, len: int) returns (error: int, ghost at: int)
      requires TreeValid() && range0 in ranges && Covers(ranges[range0], addr) && 0 < len
      ensures error == 0 <==> forall a :: addr <= a < addr + len ==> Accessible(ranges, a, write)
      ensures error != 0 ==> FirstBad(ranges, addr, addr + len, write, at) && error == if Mapped(ranges, at) then -EACCES else -EFAULT
    {
      SortedDisjoint(InOrder(rb.tree), ranges);
      var range := range0;
      at := addr;
      while true
        invariant range in ranges && Covers(ranges[range], at) && addr <= at < addr + len
        invariant forall a :: addr <= a < at ==> Accessible(ranges, a, write)
        decreases addr + len - at
      {
        AtCovered(ranges, range, at);
        if (write && !ranges[range].flag.prot.write) || (!write && !ranges[range].flag.prot.read) {
          assert !Accessible(ranges, at, write);
          return -EACCES, at;
        }
        CoveredAccess(ranges, range, write);
        if addr + len <= ranges[range].end {
          return 0, at;
        }
        at := ranges[range].end;
        var next := NextRange(range);
        NoGap(ranges, range, next);
        if next == NULL || ranges[range].end != ranges[next].start {
          assert !Accessible(ranges, at, write);
          return -EFAULT, at;
        }
        range := next;
      }
    }

    /** extend_up_process_memory_range */
    method ExtendUp(range: Ptr, newend: int) returns (error: int)
      requires Valid() && range in ranges
      modifies this`ranges
      ensures Valid()
      ensures error == 0 <==> old(ranges)[range].end < newend <= userEnd && Unmapped(old(ranges), old(ranges)[range].end, newend)
      ensures error == 0 ==> ranges == old(ranges)[range := old(ranges)[range].(end := newend)]
      ensures error != 0 ==> ranges == old(ranges)
      ensures error != 0 ==> error == if newend <= old(ranges)[range].end then -EINVAL else if userEnd < newend then -EPERM else -ENOMEM
    {
      SortedDisjoint(InOrder(rb.tree), ranges);
      if newend <= ranges[range].end {
        return -EINVAL;
      }
      if userEnd < newend {
        return -EPERM;
      }
      var next := NextRange(range);
      ExtendFits(ranges, range, next, newend);
      if next != NULL && ranges[next].start < newend {
        return -ENOMEM;
      }
      SetEnd(range, newend);
      error := 0;
    }

    /** The range's end moves up, short of every other range. */
    method SetEnd(range: Ptr, newend: int)
      requires Valid() && range in ranges && ranges[range].start < newend
      requires forall y :: y in ranges && y != range ==> newend <= ranges[y].start || ranges[y].end <= ranges[range].start
      modifies this`ranges
      ensures Valid() && ranges == old(ranges)[range := old(ranges)[range].(end := newend)]
    {
      ResizeSorted(InOrder(rb.tree), ranges, range, ranges[range].(end := newend));
      RefsKeep(ranges, range, ranges[range].(end := newend), refs, others);
      ranges := ranges[range := ranges[range].(end := newend)];
    }

    /** add_process_memory_range. The caller hands its reference on r's object over; hasPhys says that there is memory to map,
        demand that the range is demand-paged. A failed insertion leaves the page table filled in (`mapped`) and the new range's
        memory allocated (`leaked`). */
    method Add(r: VmRange, hasPhys: bool, demand: bool) returns (error: int, range: Ptr, mapped: bool, leaked: bool)
      requires Valid() && r.start < r.end && Counted(refs, r) && (r.memobj != 0 ==> others[r.memobj] > 0)
      modifies this`ranges, this`others, this`ptResults, rb
      ensures Valid()
      ensures error == 0 ==> userStart <= r.start && r.end <= userEnd && Unmapped(old(ranges), r.start, r.end)
      ensures old(ptResults) == [] || !MapsNow(r, hasPhys, demand) ==>
        (error == 0 <==> userStart <= r.start && r.end <= userEnd && Unmapped(old(ranges), r.start, r.end))
      ensures error == 0 ==> range !in old(ranges) && ranges == old(ranges)[range := r] && others == Adjust(old(others), r.memobj, -1)
      ensures error == 0 ==> forall a :: At(ranges, a) == if Covers(r, a) then Some(View(r, a)) else At(old(ranges), a)
      ensures error != 0 ==> ranges == old(ranges) && others == old(others)
      ensures error != 0 ==> error == if !(userStart <= r.start && r.end <= userEnd) then -EINVAL
                                      else if MapsNow(r, hasPhys, demand) && NextResult(old(ptResults)) != 0 then NextResult(old(ptResults))
                                      else -EFAULT
      ensures mapped <==> userStart <= r.start && r.end <= userEnd && NextResult(old(ptResults)) == 0 && hasPhys
                          && (r.flag.remote || r.flag.ioNocache || (!demand && (r.flag.prot.read || r.flag.prot.write || r.flag.prot.exec)))
      ensures leaked <==> userStart <= r.start && r.end <= userEnd && !Unmapped(old(ranges), r.start, r.end)
                          && (MapsNow(r, hasPhys, demand) ==> NextResult(old(ptResults)) == 0)
    {
      range, mapped, leaked := NULL, false, false;
      SortedDisjoint(InOrder(rb.tree), ranges);
      OverlapMapped(ranges, r.start, r.end);
      if r.start < userStart || userEnd < r.end {
        error := -EINVAL;
        return;
      }
      if MapsNow(r, hasPhys, demand) {
        error := PageTableOp();
        if error != 0 {
          return;
        }
        mapped := true;
      }
      error, range := InsertNew(r);
      leaked := error != 0;
      if error == 0 {
        AddView(old(ranges), range, r);
      }
    }

    /** A new range enters the tree and takes over the caller's reference. */
    method InsertNew(r: VmRange) returns (error: int, range: Ptr)
      requires Valid() && r.start < r.end && Counted(refs, r)
      modifies this`ranges, this`others, rb
      ensures Valid()
      ensures error == 0 <==> forall y :: y in old(ranges) ==> !Overlaps(old(ranges)[y], r.start, r.end)
      ensures error != 0 ==> error == -EFAULT
      ensures error == 0 ==> range !in old(ranges) && ranges == old(ranges)[range := r] && others == Adjust(old(others), r.memobj, -1)
      ensures error != 0 ==> ranges == old(ranges) && others == old(others)
    {
      range := Fresh(ranges.Keys);
      RefsHandOver(ranges, range, r, refs, others);
      error := VmRangeInsert(range, r);
      if error == 0 {
        others := Adjust(others, r.memobj, -1);
      }
    }
  }

  /** The result of the next page-table operation. */
  function NextResult(ptResults: seq<int>): int {
    if ptResults == [] then 0 else ptResults[0]
  }

  /** Does add_process_memory_range fill in the page table? */
  predicate MapsNow(r: VmRange, hasPhys: bool, demand: bool) {
    hasPhys && (r.flag.remote || r.flag.ioNocache || (!demand && r.flag.prot != Prot(false, false, false)))
  }

  // ----- free space -----

  ghost predicate Unmapped(s: Space, start: int, end: int) {
    forall a :: start <= a < end ==> !Mapped(s, a)
  }

  /** addr is aligned, at or above `low`, and its len bytes are free and end by userEnd. */
  ghost predicate FreeSlot(s: Space, len: int, pgsize: int, low: int, userEnd: int, addr: int)
    requires pgsize > 0
  {
    addr % pgsize == 0 && low <= addr < userEnd && addr + len <= userEnd && Unmapped(s, addr, addr + len)
  }

  /** The 64-bit test (user_end - len) < addr. */
  predicate GuardRejects(userEnd: int, len: int, addr: int) {
    Wrap64(userEnd - len) < addr
  }

  /** What search_free_space accepts at addr. */
  ghost predicate Slot(s: Space, len: int, pgsize: int, low: int, userEnd: int, addr: int)
    requires pgsize > 0
  {
    && addr % pgsize == 0 && low <= addr < userEnd
    && !GuardRejects(userEnd, len, addr) && Unmapped(s, addr, Wrap64(addr + len))
  }

  /** Where no sum can wrap, no slot lies below `at`. */
  ghost predicate NoneBelow(s: Space, len: int, pgsize: int, low: int, userEnd: int, at: int)
    requires pgsize > 0
  {
    userEnd + len <= WORD ==> forall b :: Slot(s, len, pgsize, low, userEnd, b) ==> at <= b
  }

  lemma {:induction false} OverlapMapped(s: Space, start: int, end: int)
    requires Disjoint(s) && start < end
    ensures Unmapped(s, start, end) <==> forall y :: y in s ==> !Overlaps(s[y], start, end)
  {
    if y :| y in s && Overlaps(s[y], start, end) {
      var a := if s[y].start < start then start else s[y].start;
      assert Covers(s[y], a) && Mapped(s, a);
    }
  }

  lemma {:induction false} LowestUnmapped(order: seq<Ptr>, s: Space, start: int, end: int, r: Ptr)
    requires Sorted(order, s) && NULL !in s && if start < end then Lowest(s, start, end, r) else r == NULL
    ensures r == NULL <==> Unmapped(s, start, end)
    ensures r != NULL ==> r in s && start < end && start < s[r].end
  {
    if start < end {
      SortedDisjoint(order, s);
      OverlapMapped(s, start, end);
    }
  }

  lemma {:induction false} AlignUpLeast(a: int, p: int)
    requires p > 0
    ensures AlignUp(a, p) % p == 0 && a <= AlignUp(a, p) < a + p
    ensures forall b :: b % p == 0 && a <= b ==> AlignUp(a, p) <= b
  {
    var k := (a + p - 1) / p;
    assert AlignUp(a, p) == k * p;
    DivUnique(k * p, p, k, 0);
    forall b | b % p == 0 && a <= b
      ensures k * p <= b
    {
      assert b == b / p * p;
      MulMonotone(b / p, k - 1, p);
      MulMonotone(k, b / p, p);
    }
  }

  lemma {:induction false} DivUnique(x: int, p: int, q: int, r: int)
    requires p > 0 && x == q * p + r && 0 <= r < p
    ensures x / p == q && x % p == r
  {
    var k := x / p - q;
    assert k * p == r - x % p;
    MulMonotone(1, k, p);
    MulMonotone(k, -1, p);
  }

  lemma {:induction false} MulMonotone(j: int, k: int, p: int)
    requires p > 0
    ensures j <= k ==> j * p <= k * p
  {
    if j <= k {
      assert (k - j) * p >= 0;
    }
  }

  lemma {:induction false} AlignScan(s: Space, len: int, pgsize: int, low: int, userEnd: int, at: int)
    requires pgsize > 0 && NoneBelow(s, len, pgsize, low, userEnd, at)
    ensures at <= AlignUp(at, pgsize) && AlignUp(at, pgsize) % pgsize == 0
    ensures NoneBelow(s, len, pgsize, low, userEnd, AlignUp(at, pgsize))
  {
    AlignUpLeast(at, pgsize);
  }

  lemma {:induction false} RejectScan(s: Space, len: int, pgsize: int, low: int, userEnd: int, at: int)
    requires pgsize > 0 && NoneBelow(s, len, pgsize, low, userEnd, at) && (userEnd <= at || GuardRejects(userEnd, len, at))
    ensures NoneBelow(s, len, pgsize, low, userEnd, userEnd)
  {
  }

  lemma {:induction false} OverlapTaken(s: Space, r: Ptr, lo: int, hi: int)
    requires r in s && s[r].start < s[r].end
    ensures lo < hi && Overlaps(s[r], lo, hi) ==> !Unmapped(s, lo, hi)
  {
    if lo < hi && Overlaps(s[r], lo, hi) {
      var a := if s[r].start < lo then lo else s[r].start;
      assert Covers(s[r], a) && Mapped(s, a);
    }
  }

  /** Every slot at or above `at` lies past the range that meets the slot at `at`. */
  lemma {:induction false} SkipRange(s: Space, r: Ptr, len: int, pgsize: int, low: int, userEnd: int, at: int)
    requires pgsize > 0 && 0 <= len < WORD && 0 <= low <= at < userEnd && NoneBelow(s, len, pgsize, low, userEnd, at)
    requires r in s && Overlaps(s[r], at, Wrap64(at + len)) && at < Wrap64(at + len) && s[r].start < s[r].end
    ensures NoneBelow(s, len, pgsize, low, userEnd, s[r].end)
  {
    if userEnd + len <= WORD {
      forall b | Slot(s, len, pgsize, low, userEnd, b)
        ensures s[r].end <= b
      {
        assert Wrap64(b + len) == b + len && Wrap64(at + len) == at + len;
        OverlapTaken(s, r, b, b + len);
      }
    }
  }

  predicate PastEnd(userEnd: int, len: int, addr: int) {
    userEnd < addr + len
  }

  /** The test rejects just the addresses whose slot would pass the end of the user region if and only if the
      length fits below user_end; a longer one makes the subtraction wrap, and the test lets everything through. */
  lemma {:induction false} GuardExact(userEnd: int, len: int)
    requires 0 < userEnd < WORD && 0 <= len < WORD
    ensures (forall addr :: 0 <= addr < userEnd ==> (GuardRejects(userEnd, len, addr) <==> PastEnd(userEnd, len, addr))) <==> len <= userEnd
    ensures userEnd < len ==> forall addr :: 0 <= addr < userEnd ==> !GuardRejects(userEnd, len, addr) && PastEnd(userEnd, len, addr)
  {
    if userEnd < len {
      assert Wrap64(userEnd - len) == userEnd - len + WORD;
      assert !GuardRejects(userEnd, len, 0) && PastEnd(userEnd, len, 0);
    }
  }

  /** For every length up to user_end the accepted addresses are the free slots; a longer request has no free slot,
      and every aligned address whose wrapped interval is unmapped is accepted. */
  lemma {:induction false} SlotExact(s: Space, len: int, pgsize: int, low: int, userEnd: int, addr: int)
    requires pgsize > 0 && 0 <= low && 0 < userEnd < WORD && 0 <= len < WORD
    ensures len <= userEnd ==> (Slot(s, len, pgsize, low, userEnd, addr) <==> FreeSlot(s, len, pgsize, low, userEnd, addr))
    ensures userEnd < len ==> !FreeSlot(s, len, pgsize, low, userEnd, addr)
    ensures userEnd < len ==>
      (Slot(s, len, pgsize, low, userEnd, addr) <==> addr % pgsize == 0 && low <= addr < userEnd && Unmapped(s, addr, Wrap64(addr + len)))
  {
    GuardExact(userEnd, len);
    if low <= addr < userEnd {
      assert GuardRejects(userEnd, len, addr) <==> (len <= userEnd && PastEnd(userEnd, len, addr));
      assert addr + len <= userEnd ==> Wrap64(addr + len) == addr + len;
    }
  }

  /** A hint is accepted when its wrapped interval is unmapped. That is a free interval inside the user region exactly when the
      hint's interval ends by user_end, or is mapped and does not wrap and so is refused; an interval that wraps is accepted
      whatever is mapped. */
  lemma {:induction false} HintExact(s: Space, len: int, userEnd: int, hint: int)
    requires 0 < userEnd < WORD && 0 <= len < WORD && 0 <= hint < WORD
    ensures hint + len < WORD ==> (Unmapped(s, hint, Wrap64(hint + len)) <==> Unmapped(s, hint, hint + len))
    ensures hint + len >= WORD ==> Unmapped(s, hint, Wrap64(hint + len))
    ensures (Unmapped(s, hint, Wrap64(hint + len)) ==> Unmapped(s, hint, hint + len) && hint + len <= userEnd)
       <==> hint + len <= userEnd || (hint + len < WORD && !Unmapped(s, hint, hint + len))
  {
    if hint + len < WORD {
      assert Wrap64(hint + len) == hint + len;
    } else {
      assert Wrap64(hint + len) == hint + len - WORD;
    }
  }

  /** Page 1 is mapped, and a hint there is accepted for a length that wraps. */
  lemma {:induction false} HintWraps(r: VmRange)
    requires r.start == 4096 && r.end == 8192
    ensures var s: Space := map[1 := r]; Mapped(s, 4096) && Unmapped(s, 4096, Wrap64(4096 + (WORD - 4096)))
  {
    var s: Space := map[1 := r];
    assert Covers(s[1], 4096);
    assert Wrap64(4096 + (WORD - 4096)) == 0;
  }

  // ----- access_ok -----

  /** bad is the first address of [start, end) without the access asked for. */
  ghost predicate FirstBad(s: Space, start: int, end: int, write: bool, bad: int) {
    start <= bad < end && !Accessible(s, bad, write) && forall a :: start <= a < bad ==> Accessible(s, a, write)
  }

  ghost predicate Accessible(s: Space, a: int, write: bool) {
    At(s, a).Some? && if write then At(s, a).value.flag.prot.write else At(s, a).value.flag.prot.read
  }

  lemma {:induction false} NotCovered(s: Space, r: Ptr, start: int, end: int)
    requires Disjoint(s) && NULL !in s && start < end && Lowest(s, start, end, r) && (r != NULL ==> start < s[r].start)
    ensures !Mapped(s, start)
  {
    if Mapped(s, start) {
      assert Overlaps(s[Owner(s, start)], start, end);
    }
  }

  lemma {:induction false} NoGap(s: Space, x: Ptr, next: Ptr)
    requires Disjoint(s) && NULL !in s && x in s && NextAbove(s, x, next)
    ensures next == NULL || s[next].start != s[x].end ==> !Mapped(s, s[x].end)
    ensures next != NULL && s[next].start == s[x].end ==> Covers(s[next], s[x].end)
  {
    if Mapped(s, s[x].end) {
      var y := Owner(s, s[x].end);
      assert y != x && Clear(s, x, y);
    }
  }

  lemma {:induction false} CoveredAccess(s: Space, x: Ptr, write: bool)
    requires Disjoint(s) && x in s && if write then s[x].flag.prot.write else s[x].flag.prot.read
    ensures forall a :: Covers(s[x], a) ==> Accessible(s, a, write)
  {
    forall a | Covers(s[x], a)
      ensures Accessible(s, a, write)
    {
      AtCovered(s, x, a);
    }
  }

  lemma {:induction false} ExtendFits(s: Space, x: Ptr, next: Ptr, newend: int)
    requires Disjoint(s) && NULL !in s && x in s && NextAbove(s, x, next) && s[x].end < newend
    ensures Unmapped(s, s[x].end, newend) <==> next == NULL || newend <= s[next].start
    ensures next == NULL || newend <= s[next].start ==> forall y :: y in s && y != x && !(s[y].end <= s[x].start) ==> newend <= s[y].start
  {
    OverlapMapped(s, s[x].end, newend);
    assert forall y :: y in s ==> Clear(s, x, y);
  }

  /** What the scan of mprotect sees at addr: the range that covers it, or none at all. */
  lemma {:induction false} ScanStep(s: Space, changed: Ptr, range: Ptr, addr: int)
    requires Disjoint(s) && NULL !in s
    requires changed == NULL ==> Lowest(s, addr, addr + PAGE_SIZE, range)
    requires changed != NULL ==> changed in s && s[changed].end == addr && NextAbove(s, changed, range)
    ensures range != NULL ==> range in s
    ensures range != NULL && s[range].start <= addr ==> Covers(s[range], addr) && range != changed
    ensures range == NULL || addr < s[range].start ==> !Mapped(s, addr)
    ensures changed != NULL && range != NULL ==> range != changed && s[changed].end <= s[range].start
  {
    assert changed != NULL && Mapped(s, addr) ==> Clear(s, changed, Owner(s, addr));
    if (range == NULL || addr < s[range].start) && Mapped(s, addr) {
      var y := Owner(s, addr);
      assert changed == NULL ==> Overlaps(s[y], addr, addr + PAGE_SIZE);
    }
  }

  lemma {:induction false} CoversStart(c: Ctx, t: Tree, s: Space, start: int, end: int)
    requires t.Node? && Sorted(InOrder(Plug(c, t)), s) && t.id in s && NULL !in s
    requires s[t.id].start <= start < s[t.id].end && start < end
    ensures Lowest(s, start, end, t.id)
  {
    SortedDisjoint(InOrder(Plug(c, t)), s);
  }

  /** next is the range with the lowest address above range, NULL when there is none. */
  ghost predicate NextAbove(s: Space, x: Ptr, next: Ptr)
    requires x in s
  {
    && (next != NULL ==> next in s && s[x].end <= s[next].start)
    && (forall z :: z in s && s[x].end <= s[z].start ==> next != NULL && next in s && s[next].start <= s[z].start)
  }

  ghost predicate NextBelow(s: Space, x: Ptr, prev: Ptr)
    requires x in s
  {
    && (prev != NULL ==> prev in s && s[prev].end <= s[x].start)
    && (forall z :: z in s && s[z].end <= s[x].start ==> prev != NULL && prev in s && s[z].end <= s[prev].end)
  }

  /** A window that stays between a range's neighbours meets no other range. */
  lemma {:induction false} WindowClear(s: Space, x: Ptr, below: Ptr, above: Ptr, lo: int, hi: int)
    requires Disjoint(s) && x in s && NextBelow(s, x, below) && NextAbove(s, x, above)
    requires (below != NULL ==> s[below].end <= lo) && (above != NULL ==> hi <= s[above].start)
    ensures forall y :: y in s && y != x ==> !Overlaps(s[y], lo, hi)
  {
    forall y | y in s && y != x ensures !Overlaps(s[y], lo, hi) {
      assert Clear(s, x, y);
    }
  }

  /** next is not above any range that meets [start, end). */
  ghost predicate Ahead(s: Space, start: int, end: int, next: Ptr) {
    && (next != NULL ==> next in s && start < s[next].end)
    && (forall y :: y in s && Overlaps(s[y], start, end) ==> next != NULL && next in s && s[next].start <= s[y].start)
  }

  lemma {:induction false} StillAhead(s: Space, x: Ptr, next: Ptr, start: int, end: int, s': Space)
    requires Disjoint(s) && x in s && Ahead(s, start, end, x) && Overlaps(s[x], start, end)
    requires NextAbove(s, x, next) && Carved(s, x, start, end, s')
    ensures Ahead(s', start, end, next) && (next != NULL ==> s[x].start < s'[next].start)
  {
    forall y | y in s' && Overlaps(s'[y], start, end)
      ensures next != NULL && next in s' && s'[next].start <= s'[y].start
    {
      assert y in s && y != x && Clear(s, x, y);
      assert s[x].end <= s[y].start;
    }
  }

  lemma {:induction false} RepIds(h: Arena, t: Tree, p: Ptr, x: Ptr)
    requires Rep(h, t, p) && x in Ids(t)
    ensures x in h
  {
    if x != t.id {
      if x in Ids(t.left) {
        RepIds(h, t.left, t.id, x);
      } else {
        RepIds(h, t.right, t.id, x);
      }
    }
  }

  // ----- the page-table window of free_process_memory_range -----

  /** arch_get_smaller_page_size of x86_64, 0 for its error; arm64 has contiguous sizes besides. */
  function SmallerPageSize(cursize: int, use1gb: bool): int {
    if cursize > 0x40000000 && use1gb then 0x40000000
    else if cursize > 0x200000 then 0x200000
    else if cursize > 0x1000 then 0x1000
    else 0
  }

  function AlignDown(a: int, p: int): int
    requires p > 0
  {
    a - a % p
  }

  function AlignUp(a: int, p: int): int
    requires p > 0
  {
    AlignDown(a + p - 1, p)
  }

  predicate FitsDown(start: int, prevEnd: Option<int>, p: int)
    requires p > 0
  {
    prevEnd.None? || prevEnd.value <= AlignDown(start, p)
  }

  predicate FitsUp(end: int, nextStart: Option<int>, p: int)
    requires p > 0
  {
    nextStart.None? || AlignUp(end, p) <= nextStart.value
  }

  /** The start of the largest page around `start` that begins at or above the lower neighbour's end. */
  function WindowLow(start: int, prevEnd: Option<int>, use1gb: bool): int {
    if use1gb && FitsDown(start, prevEnd, 0x40000000) then AlignDown(start, 0x40000000)
    else if FitsDown(start, prevEnd, 0x200000) then AlignDown(start, 0x200000)
    else if FitsDown(start, prevEnd, 0x1000) then AlignDown(start, 0x1000)
    else start
  }

  /** The end of the largest page around `end` that ends at or below the upper neighbour's start. */
  function WindowHigh(end: int, nextStart: Option<int>, use1gb: bool): int {
    if use1gb && FitsUp(end, nextStart, 0x40000000) then AlignUp(end, 0x40000000)
    else if FitsUp(end, nextStart, 0x200000) then AlignUp(end, 0x200000)
    else if FitsUp(end, nextStart, 0x1000) then AlignUp(end, 0x1000)
    else end
  }

  /** No other range of s meets [lo, hi). */
  ghost predicate ClearOf(s: Space, x: Ptr, lo: int, hi: int) {
    forall y :: y in s && y != x ==> !Overlaps(s[y], lo, hi)
  }

  /** lo is the start of the largest page around x's first address that keeps clear of the other ranges. */
  ghost predicate LowestPage(s: Space, x: Ptr, lo: int, use1gb: bool)
    requires x in s
  {
    var a := s[x].start;
    if use1gb && ClearOf(s, x, a - a % 0x40000000, a) then lo == a - a % 0x40000000
    else if ClearOf(s, x, a - a % 0x200000, a) then lo == a - a % 0x200000
    else if ClearOf(s, x, a - a % 0x1000, a) then lo == a - a % 0x1000
    else lo == a
  }

  /** hi is the end of the largest page around x's last address that keeps clear of the other ranges. */
  ghost predicate HighestPage(s: Space, x: Ptr, hi: int, use1gb: bool)
    requires x in s
  {
    var b := s[x].end;
    if use1gb && ClearOf(s, x, b, b + -b % 0x40000000) then hi == b + -b % 0x40000000
    else if ClearOf(s, x, b, b + -b % 0x200000) then hi == b + -b % 0x200000
    else if ClearOf(s, x, b, b + -b % 0x1000) then hi == b + -b % 0x1000
    else hi == b
  }

  /** The window cleared with range x: x itself if it is remote, uncached or reserved, else widened to the largest pages that
      keep clear of the other ranges. */
  ghost predicate Widest(s: Space, x: Ptr, lo: int, hi: int, use1gb: bool)
    requires x in s
  {
    if s[x].flag.remote || s[x].flag.ioNocache || s[x].flag.reserved then lo == s[x].start && hi == s[x].end
    else LowestPage(s, x, lo, use1gb) && HighestPage(s, x, hi, use1gb)
  }

  /** A page keeps clear of all other ranges iff it keeps clear of the neighbour. */
  lemma {:induction false} ClearBelow(s: Space, x: Ptr, below: Ptr, lo: int)
    requires Disjoint(s) && x in s && NextBelow(s, x, below) && lo <= s[x].start
    ensures ClearOf(s, x, lo, s[x].start) <==> below == NULL || s[below].end <= lo
  {
    forall y | y in s && y != x ensures Overlaps(s[y], lo, s[x].start) ==> below != NULL && lo < s[below].end {
      assert Clear(s, x, y);
    }
    if below != NULL {
      assert Clear(s, x, below);
    }
  }

  lemma {:induction false} ClearAbove(s: Space, x: Ptr, above: Ptr, hi: int)
    requires Disjoint(s) && x in s && NextAbove(s, x, above) && s[x].end <= hi
    ensures ClearOf(s, x, s[x].end, hi) <==> above == NULL || hi <= s[above].start
  {
    forall y | y in s && y != x ensures Overlaps(s[y], s[x].end, hi) ==> above != NULL && s[above].start < hi {
      assert Clear(s, x, y);
    }
    if above != NULL {
      assert Clear(s, x, above);
    }
  }

  lemma {:induction false} WidestLow(s: Space, x: Ptr, below: Ptr, use1gb: bool)
    requires Disjoint(s) && x in s && NextBelow(s, x, below)
    ensures LowestPage(s, x, WindowLow(s[x].start, if below == NULL then None else Some(s[below].end), use1gb), use1gb)
  {
    var a := s[x].start;
    ClearBelow(s, x, below, a - a % 0x40000000);
    ClearBelow(s, x, below, a - a % 0x200000);
    ClearBelow(s, x, below, a - a % 0x1000);
  }

  lemma {:induction false} WidestHigh(s: Space, x: Ptr, above: Ptr, use1gb: bool)
    requires Disjoint(s) && x in s && NextAbove(s, x, above)
    ensures HighestPage(s, x, WindowHigh(s[x].end, if above == NULL then None else Some(s[above].start), use1gb), use1gb)
  {
    var b := s[x].end;
    assert AlignUp(b, 0x40000000) == b + -b % 0x40000000;
    assert AlignUp(b, 0x200000) == b + -b % 0x200000;
    assert AlignUp(b, 0x1000) == b + -b % 0x1000;
    ClearAbove(s, x, above, b + -b % 0x40000000);
    ClearAbove(s, x, above, b + -b % 0x200000);
    ClearAbove(s, x, above, b + -b % 0x1000);
  }

  /** The first loop, from the largest page size down. */
  method WidenDown(start: int, prevEnd: Option<int>, use1gb: bool) returns (s: int)
    ensures s == WindowLow(start, prevEnd, use1gb)
    ensures s <= start && (prevEnd.Some? && prevEnd.value <= start ==> prevEnd.value <= s)
  {
    s := start;
    var pgsize := 0xffff_ffff_ffff_ffff;
    while true
      invariant s == start
      invariant pgsize == 0xffff_ffff_ffff_ffff || (use1gb && pgsize == 0x40000000) || pgsize == 0x200000 || pgsize == 0x1000
      invariant pgsize <= 0x40000000 && use1gb ==> !FitsDown(start, prevEnd, 0x40000000)
      invariant pgsize <= 0x200000 ==> !FitsDown(start, prevEnd, 0x200000)
      invariant pgsize <= 0x1000 ==> !FitsDown(start, prevEnd, 0x1000)
      decreases pgsize
    {
      pgsize := SmallerPageSize(pgsize, use1gb);
      if pgsize == 0 {
        break;
      }
      var lpstart := AlignDown(start, pgsize);
      if prevEnd.None? || prevEnd.value <= lpstart {
        s := lpstart;
        break;
      }
    }
  }

  method WidenUp(end: int, nextStart: Option<int>, use1gb: bool) returns (e: int)
    ensures e == WindowHigh(end, nextStart, use1gb)
    ensures end <= e && (nextStart.Some? && end <= nextStart.value ==> e <= nextStart.value)
  {
    e := end;
    var pgsize := 0xffff_ffff_ffff_ffff;
    while true
      invariant e == end
      invariant pgsize == 0xffff_ffff_ffff_ffff || (use1gb && pgsize == 0x40000000) || pgsize == 0x200000 || pgsize == 0x1000
      invariant pgsize <= 0x40000000 && use1gb ==> !FitsUp(end, nextStart, 0x40000000)
      invariant pgsize <= 0x200000 ==> !FitsUp(end, nextStart, 0x200000)
      invariant pgsize <= 0x1000 ==> !FitsUp(end, nextStart, 0x1000)
      decreases pgsize
    {
      pgsize := SmallerPageSize(pgsize, use1gb);
      if pgsize == 0 {
        break;
      }
      var lpend := AlignUp(end, pgsize);
      if nextStart.None? || lpend <= nextStart.value {
        e := lpend;
        break;
      }
    }
  }

  predicate Counted(refs: map<Memobj, int>, r: VmRange) {
    r.memobj != 0 ==> r.memobj in refs
  }

  lemma {:induction false} CutReady(order: seq<Ptr>, s: Space, x: Ptr, addr: int, y: Ptr, upper: VmRange)
    requires Sorted(order, s) && x in s && y !in s && s[x].start < addr < s[x].end
    requires upper == s[x].(start := addr, objoff := if s[x].memobj == 0 then 0 else s[x].objoff + (addr - s[x].start))
    ensures var s1 := s[x := s[x].(end := addr)];
            && Sorted(order, s1) && y !in s1
            && (forall z :: z in s1 ==> !Overlaps(s1[z], upper.start, upper.end))
            && Cut(s, x, addr, y) == s1[y := upper]
  {
    SortedDisjoint(order, s);
    ResizeSorted(order, s, x, s[x].(end := addr));
  }

  /** Joining two touching ranges keeps the order. */
  lemma {:induction false} JoinSorted(order: seq<Ptr>, s: Space, x: Ptr, y: Ptr)
    requires Sorted(order, s) && x in s && y in s && x != y && s[x].end == s[y].start
    ensures Sorted(Without(order, y), Glue(s, x, y))
  {
    SortedDisjoint(order, s);
    EraseSorted(order, s, y);
    ResizeSorted(Without(order, y), s - {y}, x, s[x].(end := s[y].end));
    assert Glue(s, x, y) == (s - {y})[x := s[x].(end := s[y].end)];
  }
}
