/** The per-CPU kernel heap of kernel/mem.c: allocation, local and remote free, and consolidation. */
module Kmalloc {

  import opened Seqs
  import opened KmallocChunks

  const NULL: Ptr := 0

  datatype Place = Used | Free | Remote

  type Lists = map<nat, seq<Ptr>>

  /** Every chunk is in use, on the free list of its CPU, or on the remote free list of its CPU. */
  ghost predicate ListsOk(h: Chunks, free: Lists, remote: Lists, place: map<Ptr, Place>) {
    && place.Keys == h.Keys && remote.Keys == free.Keys
    && (forall c :: Owned(h, free, c)) && (forall u :: CpuLists(h, free, remote, place, u))
  }

  predicate Owned(h: Chunks, free: Lists, c: Ptr) {
    c in h ==> h[c].cpu in free
  }

  /** CPU u's free list is sorted by address, and each of its lists holds its own chunks and no others. */
  ghost predicate CpuLists(h: Chunks, free: Lists, remote: Lists, place: map<Ptr, Place>, u: nat)
    requires place.Keys == h.Keys && remote.Keys == free.Keys
  {
    u in free ==>
      && ListOk(h, place, u, Free, free[u]) && ListOk(h, place, u, Remote, remote[u])
      && Sorted(free[u]) && NoDup(remote[u])
  }

  ghost predicate ListOk(h: Chunks, place: map<Ptr, Place>, u: nat, p: Place, l: seq<Ptr>)
    requires place.Keys == h.Keys
  {
    forall c :: c in l <==> c in h && place[c] == p && h[c].cpu == u
  }

  /** No two chunks of the list are adjacent in memory. */
  ghost predicate NoneAdjacent(h: Chunks, l: seq<Ptr>) {
    forall c, d :: c in l && d in l && c in h ==> End(h, c) != d
  }

  /** Chunks other than x have the same place and CPU. */
  ghost predicate Elsewhere(h: Chunks, place: map<Ptr, Place>, h': Chunks, place': map<Ptr, Place>, x: Ptr)
    requires place.Keys == h.Keys && place'.Keys == h'.Keys
  {
    forall c :: c != x ==> (c in h' <==> c in h) && (c in h ==> h'[c].cpu == h[c].cpu && place'[c] == place[c])
  }

  lemma {:induction false} ListKept(h: Chunks, place: map<Ptr, Place>, h': Chunks, place': map<Ptr, Place>, v: nat, p: Place,
                                    l: seq<Ptr>, l': seq<Ptr>, x: Ptr)
    requires place.Keys == h.Keys && place'.Keys == h'.Keys && Elsewhere(h, place, h', place', x) && ListOk(h, place, v, p, l)
    requires forall c :: c != x ==> (c in l' <==> c in l)
    requires x in l' <==> x in h' && place'[x] == p && h'[x].cpu == v
    ensures ListOk(h', place', v, p, l')
  {
  }

  /** Chunk x of CPU u appears, disappears or changes place; everything else stays. */
  lemma {:induction false} OneChanged(h: Chunks, free: Lists, remote: Lists, place: map<Ptr, Place>,
                                      h': Chunks, free': Lists, remote': Lists, place': map<Ptr, Place>, x: Ptr, u: nat)
    requires ListsOk(h, free, remote, place) && u in free
    requires place'.Keys == h'.Keys && free'.Keys == free.Keys == remote'.Keys
    requires forall v :: v in free && v != u ==> free'[v] == free[v] && remote'[v] == remote[v]
    requires (x in h ==> h[x].cpu == u) && (x in h' ==> h'[x].cpu == u)
    requires Elsewhere(h, place, h', place', x)
    requires forall c :: c != x ==> (c in free'[u] <==> c in free[u]) && (c in remote'[u] <==> c in remote[u])
    requires x in free'[u] <==> x in h' && place'[x] == Free
    requires x in remote'[u] <==> x in h' && place'[x] == Remote
    requires Sorted(free'[u]) && NoDup(remote'[u])
    ensures ListsOk(h', free', remote', place')
  {
    forall c ensures Owned(h', free', c) {
      assert Owned(h, free, c);
    }
    forall v ensures CpuLists(h', free', remote', place', v) {
      if v in free {
        assert CpuLists(h, free, remote, place, v);
        ListKept(h, place, h', place', v, Free, free[v], free'[v], x);
        ListKept(h, place, h', place', v, Remote, remote[v], remote'[v], x);
      }
    }
  }

  /** Free chunks of CPU u may have been merged; no other chunk has changed. */
  ghost predicate Merged(h: Chunks, place: map<Ptr, Place>, h': Chunks, place': map<Ptr, Place>, u: nat)
    requires place.Keys == h.Keys && place'.Keys == h'.Keys
  {
    && (forall c :: c in h' ==> c in h && place'[c] == place[c] && h'[c].cpu == h[c].cpu)
    && (forall c :: c in h && !(place[c] == Free && h[c].cpu == u) ==> c in h' && h'[c] == h[c])
  }

  lemma {:induction false} MergeMore(h0: Chunks, place0: map<Ptr, Place>, h: Chunks, place: map<Ptr, Place>, u: nat, c: Ptr, d: Ptr)
    requires place0.Keys == h0.Keys && place.Keys == h.Keys && Merged(h0, place0, h, place, u)
    requires c in h && d in h && c != d && place[c] == Free && place[d] == Free && h[c].cpu == u && h[d].cpu == u
    ensures MergeChunk(h, c, d).Keys == (place - {d}).Keys && Merged(h0, place0, MergeChunk(h, c, d), place - {d}, u)
  {
  }

  lemma {:induction false} MergeAligned(h: Chunks, c: Ptr, d: Ptr)
    requires Aligned(h) && c in h && d in h
    ensures Aligned(MergeChunk(h, c, d))
  {
    var h' := MergeChunk(h, c, d);
    forall e ensures AlignedAt(h', e) {
      assert AlignedAt(h, e) && AlignedAt(h, d);
    }
  }

  /** Merging neighbours of a free list keeps the lists in order. */
  lemma {:induction false} MergeLists(h: Chunks, free: Lists, remote: Lists, place: map<Ptr, Place>, u: nat, i: nat)
    requires Disjoint(h) && ListsOk(h, free, remote, place) && u in free && i + 1 < |free[u]|
    requires free[u][i] in h && End(h, free[u][i]) == free[u][i + 1] && free[u][i + 1] in h
    ensures var l := free[u];
            ListsOk(MergeChunk(h, l[i], l[i + 1]), free[u := l[..i + 1] + l[i + 2..]], remote, place - {l[i + 1]})
  {
    var l := free[u];
    var d := l[i + 1];
    assert d in l && CpuLists(h, free, remote, place, u);
    DropAt(l, i + 1);
    OneChanged(h, free, remote, place, MergeChunk(h, l[i], d), free[u := l[..i + 1] + l[i + 2..]], remote, place - {d}, d, u);
  }

  ghost predicate HeapOk(h: Chunks, free: Lists, remote: Lists, place: map<Ptr, Place>, pages: set<nat>) {
    Tiles(h, pages) && Aligned(h) && ListsOk(h, free, remote, place)
  }

  /** CPU u's free list part way through consolidation, since h0, place0 and its list l0. */
  ghost predicate Consolidating(h0: Chunks, place0: map<Ptr, Place>, l0: seq<Ptr>, h: Chunks, place: map<Ptr, Place>, l: seq<Ptr>, u: nat) {
    && place0.Keys == h0.Keys && place.Keys == h.Keys && Merged(h0, place0, h, place, u)
    && SameListBytes(h0, l0, h, l)
  }

  /** One merge: the heap stays in order and the list keeps its bytes. */
  lemma {:induction false} MergeRound(h0: Chunks, place0: map<Ptr, Place>, l0: seq<Ptr>,
                                      h: Chunks, free: Lists, remote: Lists, place: map<Ptr, Place>, pages: set<nat>, u: nat, i: nat)
    requires HeapOk(h, free, remote, place, pages) && u in free && i + 1 < |free[u]|
    requires AllIn(free[u], h.Keys) && End(h, free[u][i]) == free[u][i + 1]
    requires Consolidating(h0, place0, l0, h, place, free[u], u)
    ensures var l := free[u];
            var h', l', place' := MergeChunk(h, l[i], l[i + 1]), l[..i + 1] + l[i + 2..], place - {l[i + 1]};
            HeapOk(h', free[u := l'], remote, place', pages) && Consolidating(h0, place0, l0, h', place', l', u)
  {
    var l := free[u];
    var c, d := l[i], l[i + 1];
    assert c in l && d in l && CpuLists(h, free, remote, place, u);
    MergeKeeps(h, c, d);
    MergeLists(h, free, remote, place, u, i);
    MergeAligned(h, c, d);
    MergeMore(h0, place0, h, place, u, c, d);
    forall a: nat ensures ListBytes(h0, l0, a) <==> ListBytes(MergeChunk(h, c, d), l[..i + 1] + l[i + 2..], a) {
      MergeList(h, l, i, a);
    }
  }

  // ---------------------------------------------------------------------------------------------- lists

  lemma {:induction false} InsertSorted(l: seq<Ptr>, i: nat, x: Ptr)
    requires Sorted(l) && i <= |l| && (forall k :: 0 <= k < i ==> l[k] < x) && (forall k :: i <= k < |l| ==> x < l[k])
    ensures Sorted(l[..i] + [x] + l[i..])
    ensures forall c :: c in l[..i] + [x] + l[i..] <==> c in l || c == x
  {
    assert l == l[..i] + l[i..];
  }

  lemma {:induction false} DropAt(l: seq<Ptr>, i: nat)
    requires Sorted(l) && i < |l|
    ensures Sorted(l[..i] + l[i + 1..])
    ensures forall c :: c in l[..i] + l[i + 1..] <==> c in l && c != l[i]
  {
    assert l == l[..i] + [l[i]] + l[i + 1..];
  }

  lemma {:induction false} DropHead(l: seq<Ptr>)
    requires NoDup(l) && l != []
    ensures NoDup(l[1..])
    ensures forall c :: c in l[1..] <==> c in l && c != l[0]
  {
    assert l == [l[0]] + l[1..];
  }

  /** In a sorted list of disjoint chunks only neighbours in the list can be adjacent in memory. */
  lemma {:induction false} Neighbours(h: Chunks, l: seq<Ptr>)
    requires Disjoint(h) && AllIn(l, h.Keys) && Sorted(l)
    requires forall i :: 0 <= i < |l| - 1 ==> End(h, l[i]) != l[i + 1]
    ensures NoneAdjacent(h, l)
  {
    forall c, d | c in l && d in l && c in h ensures End(h, c) != d {
      var i :| 0 <= i < |l| && l[i] == c;
      var j :| 0 <= j < |l| && l[j] == d;
      assert i + 1 < |l| ==> Clear(h, c, l[i + 1]);
      assert i + 1 < j ==> l[i + 1] in l && l[i + 1] in h && End(h, c) <= l[i + 1] < l[j];
    }
  }

  /** A list as consolidation leaves it. */
  ghost predicate Coalesced(h: Chunks, l: seq<Ptr>) {
    Disjoint(h) && AllIn(l, h.Keys) && Sorted(l) && NoneAdjacent(h, l)
  }

  ghost predicate SameListBytes(h: Chunks, l: seq<Ptr>, h': Chunks, l': seq<Ptr>) {
    forall a: nat :: ListBytes(h, l, a) <==> ListBytes(h', l', a)
  }

  /** A chunk of l starts where one of l' does, or where another of l ends. */
  lemma {:induction false} StartsAgree(h: Chunks, l: seq<Ptr>, h': Chunks, l': seq<Ptr>, c: Ptr)
    requires Disjoint(h) && AllIn(l, h.Keys) && AllIn(l', h'.Keys) && SameListBytes(h, l, h', l') && c in l
    ensures c in l' || exists e :: e in l && End(h, e) == c
  {
    assert In(h, c, c) && ListBytes(h, l, c);
    var d :| d in l' && In(h', d, c);
    if d != c {
      assert In(h', d, c - 1) && ListBytes(h', l', c - 1) && ListBytes(h, l, c - 1);
      var e :| e in l && In(h, e, c - 1);
      assert Clear(h, e, c);
    }
  }

  /** A chunk of l ends no earlier than one of l' that starts with it, or where another of l starts. */
  lemma {:induction false} EndsAgree(h: Chunks, l: seq<Ptr>, h': Chunks, l': seq<Ptr>, c: Ptr)
    requires Disjoint(h) && AllIn(l, h.Keys) && AllIn(l', h'.Keys) && SameListBytes(h, l, h', l') && c in l && c in l'
    ensures End(h, c) >= End(h', c) || End(h, c) in l
  {
    var a := End(h, c);
    if a < End(h', c) {
      assert In(h', c, a) && ListBytes(h', l', a) && ListBytes(h, l, a);
      var e :| e in l && In(h, e, a);
      assert Clear(h, c, e) && Clear(h, e, c);
    }
  }

  lemma {:induction false} SortedUnique(l: seq<Ptr>, l': seq<Ptr>)
    requires Sorted(l) && Sorted(l') && forall c :: c in l <==> c in l'
    ensures l == l'
    decreases |l|
  {
    assert l' != [] ==> l'[0] in l;
    if l != [] {
      assert l[0] in l';
      assert l'[0] in l;
      assert l[0] == l'[0];
      assert forall c :: c in l[1..] <==> c in l && c != l[0] by {
        assert l == [l[0]] + l[1..];
      }
      assert forall c :: c in l'[1..] <==> c in l' && c != l'[0] by {
        assert l' == [l'[0]] + l'[1..];
      }
      SortedUnique(l[1..], l'[1..]);
    }
  }

  /** Consolidation has one possible outcome: bytes and "sorted, disjoint, none adjacent" fix the list and every size. */
  lemma {:induction false} CoalescedUnique(h: Chunks, l: seq<Ptr>, h': Chunks, l': seq<Ptr>)
    requires Coalesced(h, l) && Coalesced(h', l') && SameListBytes(h, l, h', l')
    ensures l == l' && forall c :: c in l ==> h[c].size == h'[c].size
  {
    forall c ensures c in l <==> c in l' {
      if c in l {
        StartsAgree(h, l, h', l', c);
      }
      if c in l' {
        StartsAgree(h', l', h, l, c);
      }
    }
    SortedUnique(l, l');
    forall c | c in l ensures h[c].size == h'[c].size {
      EndsAgree(h, l, h', l', c);
      EndsAgree(h', l', h, l, c);
    }
  }

  function RoundUp(size: nat): (r: nat)
    ensures r % MIN_SIZE == 0 && size <= r < size + MIN_SIZE
  {
    if size % MIN_SIZE != 0 then size + MIN_SIZE - 1 - (size + MIN_SIZE - 1) % MIN_SIZE else size
  }

  function PagesFor(size: nat): (n: nat)
    ensures n * PAGE_SIZE >= size + HEADER && (n - 1) * PAGE_SIZE < size + HEADER
  {
    (size + HEADER + PAGE_SIZE - 1) / PAGE_SIZE
  }

  class Heap {
    var h: Chunks
    var free: Lists
    var remote: Lists
    ghost var place: map<Ptr, Place>
    ghost var pages: set<nat>

    ghost predicate Valid()
      reads this
    {
      HeapOk(h, free, remote, place, pages)
    }

    constructor (cpus: set<nat>)
      ensures Valid() && h == map[] && pages == {} && free.Keys == cpus
    {
      h, place, pages := map[], map[], {};
      free := map u | u in cpus :: [];
      remote := map u | u in cpus :: [];
    }

    /** ___kmalloc_insert_chunk */
    method InsertChunk(u: nat, x: Ptr)
      requires u in free && Sorted(free[u]) && x !in free[u]
      modifies `free
      ensures free.Keys == old(free).Keys && forall v :: v in free && v != u ==> free[v] == old(free)[v]
      ensures Sorted(free[u]) && forall c :: c in free[u] <==> c in old(free)[u] || c == x
    {
      var l, i := free[u], 0;
      while i < |l| && !(x < l[i])
        invariant 0 <= i <= |l| && forall k :: 0 <= k < i ==> l[k] < x
      {
        i := i + 1;
      }
      InsertSorted(l, i, x);
      free := free[u := l[..i] + [x] + l[i..]];
    }

    /** The scan of ___kmalloc_consolidate_list: the first chunk that the next one in the list continues. */
    method FindAdjacent(u: nat) returns (i: nat)
      requires u in free && AllIn(free[u], h.Keys) && Disjoint(h) && Sorted(free[u])
      ensures i + 1 < |free[u]| ==> End(h, free[u][i]) == free[u][i + 1]
      ensures i + 1 >= |free[u]| ==> NoneAdjacent(h, free[u])
    {
      var l := free[u];
      i := 0;
      while i + 1 < |l|
        invariant i <= |l| && forall k :: 0 <= k < i && k < |l| - 1 ==> End(h, l[k]) != l[k + 1]
      {
        if End(h, l[i]) == l[i + 1] {
          return;
        }
        i := i + 1;
      }
      Neighbours(h, l);
    }

    method MergeAt(ghost h0: Chunks, ghost place0: map<Ptr, Place>, ghost l0: seq<Ptr>, u: nat, i: nat)
      requires Valid() && u in free && i + 1 < |free[u]|
      requires AllIn(free[u], h.Keys) && End(h, free[u][i]) == free[u][i + 1]
      requires Consolidating(h0, place0, l0, h, place, free[u], u)
      modifies `h, `free, `place
      ensures Valid() && Consolidating(h0, place0, l0, h, place, free[u], u) && |free[u]| < |old(free)[u]|
      ensures free.Keys == old(free).Keys && forall v :: v in free && v != u ==> free[v] == old(free)[v]
    {
      var l := free[u];
      MergeRound(h0, place0, l0, h, free, remote, place, pages, u, i);
      h, free, place := MergeChunk(h, l[i], l[i + 1]), free[u := l[..i + 1] + l[i + 2..]], place - {l[i + 1]};
    }

    /** ___kmalloc_consolidate_list on CPU u's free list: the same free bytes, with no two free chunks adjacent. */
    method ConsolidateList(u: nat)
      requires Valid() && u in free
      modifies `h, `free, `place
      ensures Valid() && free.Keys == old(free).Keys && forall v :: v in free && v != u ==> free[v] == old(free)[v]
      ensures Consolidating(old(h), old(place), old(free)[u], h, place, free[u], u)
      ensures Coalesced(h, free[u])
    {
      ghost var h0, place0, l0 := h, place, free[u];
      FreeKnown(h, free, remote, place, u);
      var i: nat := FindAdjacent(u);
      while i + 1 < |free[u]|
        invariant Valid() && free.Keys == old(free).Keys && forall v :: v in free && v != u ==> free[v] == old(free)[v]
        invariant Consolidating(h0, place0, l0, h, place, free[u], u) && AllIn(free[u], h.Keys)
        invariant i + 1 < |free[u]| ==> End(h, free[u][i]) == free[u][i + 1]
        invariant i + 1 >= |free[u]| ==> NoneAdjacent(h, free[u])
        decreases |free[u]|
      {
        MergeAt(h0, place0, l0, u, i);
        FreeKnown(h, free, remote, place, u);
        i := FindAdjacent(u);
      }
      FreeKnown(h, free, remote, place, u);
    }

    /** One chunk moves from CPU u's remote free list to its free list. */
    method DrainOne(u: nat)
      requires Valid() && u in free && remote[u] != []
      modifies `free, `remote, `place
      ensures Valid() && place == old(place)[old(remote)[u][0] := Free] && remote == old(remote)[u := old(remote)[u][1..]]
      ensures free.Keys == old(free).Keys && forall v :: v in free && v != u ==> free[v] == old(free)[v]
      ensures Pooled(old(free)[u], old(remote)[u], free[u], remote[u])
    {
      var c := remote[u][0];
      ghost var free0, remote0, place0 := free, remote, place;
      assert CpuLists(h, free, remote, place, u);
      assert c in remote[u];
      DropHead(remote[u]);
      remote := remote[u := remote[u][1..]];
      InsertChunk(u, c);
      place := place[c := Free];
      OneChanged(h, free0, remote0, place0, h, free, remote, place, c, u);
    }

    /** kmalloc_consolidate_free_list: every remotely freed chunk joins the free list, which is then consolidated. */
    method ConsolidateFreeList(u: nat)
      requires Valid() && u in free
      modifies `h, `free, `remote, `place
      ensures Valid() && remote == old(remote)[u := []] && Coalesced(h, free[u])
      ensures free.Keys == old(free).Keys && forall v :: v in free && v != u ==> free[v] == old(free)[v]
      ensures UsedSame(old(h), old(place), h, place)
      ensures JoinedBytes(old(h), old(free)[u], old(remote)[u], h, free[u])
    {
      ghost var h0, place0 := h, place;
      while remote[u] != []
        invariant Valid() && u in free && h == h0 && remote == old(remote)[u := remote[u]]
        invariant Pooled(old(free)[u], old(remote)[u], free[u], remote[u])
        invariant free.Keys == old(free).Keys && forall v :: v in free && v != u ==> free[v] == old(free)[v]
        invariant UsedSame(h0, place0, h, place)
        decreases |remote[u]|
      {
        assert CpuLists(h, free, remote, place, u) && remote[u][0] in remote[u];
        DrainOne(u);
      }
      ghost var l := free[u];
      ConsolidateList(u);
      JoinLists(h0, old(free)[u], old(remote)[u], l, h, free[u]);
    }

    /** ___kfree of a block handed out before. */
    method Kfree(u: nat, ptr: Ptr)
      requires Valid() && u in free
      requires ptr != NULL ==> ptr >= HEADER && ptr - HEADER in h && place[ptr - HEADER] == Used
      modifies `h, `free, `remote, `place
      ensures Valid() && free.Keys == old(free).Keys
      ensures ptr == NULL ==> h == old(h) && free == old(free) && remote == old(remote) && place == old(place)
      ensures ptr != NULL ==> UsedButOne(old(h), old(place), h, place, ptr - HEADER)
      ensures ptr != NULL && old(h)[ptr - HEADER].cpu == u ==>
                && Coalesced(h, free[u]) && JoinedBytes(old(h), old(free)[u], [ptr - HEADER], h, free[u])
                && remote == old(remote) && forall v :: v in free && v != u ==> free[v] == old(free)[v]
      ensures ptr != NULL && old(h)[ptr - HEADER].cpu != u ==>
                var o := old(h)[ptr - HEADER].cpu;
                && h == old(h) && free == old(free)
                && o in old(remote) && remote == old(remote)[o := [ptr - HEADER] + old(remote)[o]]
    {
      if ptr == NULL {
        return;
      }
      var c := ptr - HEADER;
      ghost var free0, remote0, place0, h0 := free, remote, place, h;
      var o := h[c].cpu;
      assert Owned(h, free, c) && CpuLists(h, free, remote, place, o);
      if o == u {
        InsertChunk(u, c);
        place := place[c := Free];
        OneChanged(h, free0, remote0, place0, h, free, remote, place, c, u);
        ghost var l := free[u];
        ConsolidateList(u);
        JoinLists(h0, free0[u], [c], l, h, free[u]);
      } else {
        assert forall x :: x in [c] + remote[o] <==> x == c || x in remote[o];
        remote := remote[o := [c] + remote[o]];
        place := place[c := Remote];
        OneChanged(h, free0, remote0, place0, h, free, remote, place, c, o);
      }
    }

    /** The split of split_and_return: a leftover chunk takes the chosen chunk's place on the list. */
    method TakePart(u: nat, i: nat, size: nat)
      requires Valid() && u in free && i < |free[u]| && free[u][i] in h && h[free[u][i]].size > size + HEADER && size % MIN_SIZE == 0
      modifies `h, `free, `place
      ensures Valid() && free.Keys == old(free).Keys
      ensures var c := old(free)[u][i];
              && h == SplitChunk(old(h), c, size, u) && place == old(place)[c + HEADER + size := Free][c := Used]
              && c + HEADER + size !in old(h)
    {
      var l := free[u];
      var c := l[i];
      var leftover := c + HEADER + size;
      SplitKeeps(h, c, size, u);
      SplitLists(h, free, remote, place, u, i, size);
      SplitAligned(h, c, size, u);
      h := SplitChunk(h, c, size, u);
      free := free[u := l[..i] + [leftover] + l[i + 1..]];
      place := place[leftover := Free][c := Used];
    }

    /** split_and_return: chunk c of CPU u's free list, cut to size when a header and some content fit behind it. */
    method Take(u: nat, i: nat, size: nat) returns (c: Ptr)
      requires Valid() && u in free && i < |free[u]| && free[u][i] in h && h[free[u][i]].size >= size && size % MIN_SIZE == 0
      modifies `h, `free, `place
      ensures Valid() && free.Keys == old(free).Keys && c == old(free)[u][i]
      ensures UsedAndOne(old(h), old(place), h, place, c) && size <= h[c].size <= size + HEADER && h[c].cpu == u
    {
      var l := free[u];
      c := l[i];
      ghost var h0, free0, place0 := h, free, place;
      assert c in l && CpuLists(h, free, remote, place, u);
      if h[c].size > size + HEADER {
        TakePart(u, i, size);
      } else {
        DropAt(l, i);
        free := free[u := l[..i] + l[i + 1..]];
        place := place[c := Used];
        OneChanged(h0, free0, remote, place0, h, free, remote, place, c, u);
      }
    }

    /** The search of ___kmalloc: the first chunk of the list that is big enough. */
    method FirstFit(u: nat, size: nat) returns (i: nat)
      requires u in free && AllIn(free[u], h.Keys)
      ensures i <= |free[u]| && forall k :: 0 <= k < i ==> h[free[u][k]].size < size
      ensures i < |free[u]| ==> h[free[u][i]].size >= size
    {
      i := 0;
      while i < |free[u]| && !(h[free[u][i]].size >= size)
        invariant i <= |free[u]| && forall k :: 0 <= k < i ==> h[free[u][k]].size < size
      {
        i := i + 1;
      }
    }

    /** The pages at `first` become one free chunk of CPU u. */
    method Grow(u: nat, first: nat, n: nat)
      requires Valid() && u in free && n > 0 && PageSet(first, n) !! pages
      modifies `h, `free, `place, `pages
      ensures Valid() && free.Keys == old(free).Keys && UsedSame(old(h), old(place), h, place)
      ensures var p := first * PAGE_SIZE; p in free[u] && p in h && h[p] == Header(n * PAGE_SIZE - HEADER, u)
      ensures pages == old(pages) + PageSet(first, n)
    {
      var p := first * PAGE_SIZE;
      ghost var h0, free0, place0 := h, free, place;
      NewChunk(h, pages, first, n, u);
      NewAligned(h, first, n, u);
      assert CpuLists(h, free, remote, place, u);
      InsertChunk(u, p);
      h := h[p := Header(n * PAGE_SIZE - HEADER, u)];
      place, pages := place[p := Free], pages + PageSet(first, n);
      OneChanged(h0, free0, remote, place0, h, free, remote, place, p, u);
    }

    /** ___kmalloc on CPU u; `page` is the first page the page allocator would hand out, if it can. */
    method Kmalloc(u: nat, size: nat, page: Option<nat>) returns (ptr: Ptr)
      requires Valid() && u in free
      requires page.Some? ==> page.value > 0 && PageSet(page.value, PagesFor(RoundUp(size))) !! pages
      modifies `h, `free, `place, `pages
      ensures Valid() && free.Keys == old(free).Keys
      ensures ptr == NULL <==> page.None? && AllSmall(old(h), old(free)[u], RoundUp(size))
      ensures ptr == NULL ==> h == old(h) && free == old(free) && place == old(place) && pages == old(pages)
      ensures ptr != NULL ==> ptr >= HEADER && ptr % MIN_SIZE == 0 && UsedAndOne(old(h), old(place), h, place, ptr - HEADER)
      ensures ptr != NULL ==> RoundUp(size) <= h[ptr - HEADER].size <= RoundUp(size) + HEADER && h[ptr - HEADER].cpu == u
      ensures ptr != NULL && ptr - HEADER in old(free)[u] ==>
                forall c :: c in old(free)[u] && c < ptr - HEADER ==> c in old(h) && old(h)[c].size < RoundUp(size)
      ensures ptr != NULL && ptr - HEADER !in old(free)[u] ==>
                page.Some? && ptr - HEADER == page.value * PAGE_SIZE && AllSmall(old(h), old(free)[u], RoundUp(size))
    {
      var sz := RoundUp(size);
      FreeKnown(h, free, remote, place, u);
      var i := FirstFit(u, sz);
      if i == |free[u]| {
        if page.None? {
          return NULL;
        }
        Grow(u, page.value, PagesFor(sz));
        i :| 0 <= i < |free[u]| && free[u][i] == page.value * PAGE_SIZE;
      }
      var c := Take(u, i, sz);
      assert AlignedAt(h, c);
      ptr := c + HEADER;
    }
  }

  const TWO31: int := 0x8000_0000

  /** A value stored in an int of 32 bits. */
  function Int32(x: int): int {
    (x + TWO31) % (2 * TWO31) - TWO31
  }

  /** The requested size after rounding, as the int it is kept in. */
  function IntSize(size: nat): int {
    if size % MIN_SIZE != 0 then
      var t := Int32(size + MIN_SIZE - 1);
      t - t % MIN_SIZE
    else size
  }

  /** The size stored in the header of newly allocated pages. */
  function IntNew(size: nat): int {
    Int32(PagesFor(size) * PAGE_SIZE - HEADER)
  }

  /** For requests that are ints, the int arithmetic of ___kmalloc is that of the natural numbers exactly up to 2^31 - 32 bytes:
      above, the rounded size turns negative. */
  lemma {:induction false} IntExact(size: nat)
    requires size < TWO31
    ensures IntSize(size) == RoundUp(size) && IntNew(RoundUp(size)) == PagesFor(RoundUp(size)) * PAGE_SIZE - HEADER <==> size <= TWO31 - HEADER
    ensures size > TWO31 - HEADER ==> IntSize(size) < 0
  {
    var r := RoundUp(size);
    if size <= TWO31 - HEADER {
      assert r <= TWO31 - HEADER && PagesFor(r) <= TWO31 / PAGE_SIZE;
    } else {
      assert size % MIN_SIZE != 0 && TWO31 <= size + MIN_SIZE - 1;
    }
  }

  /** No chunk of the list is big enough. */
  ghost predicate AllSmall(h: Chunks, l: seq<Ptr>, size: nat) {
    forall c :: c in l ==> c in h && h[c].size < size
  }

  /** The blocks in use are the same and c besides. */
  ghost predicate UsedAndOne(h: Chunks, place: map<Ptr, Place>, h': Chunks, place': map<Ptr, Place>, c: Ptr) {
    && place.Keys == h.Keys && place'.Keys == h'.Keys && c in h' && (c in h ==> place[c] != Used)
    && (forall d :: (d in h && place[d] == Used) || d == c <==> d in h' && place'[d] == Used)
    && (forall d :: d in h && place[d] == Used ==> h'[d] == h[d])
  }

  lemma {:induction false} SplitAligned(h: Chunks, c: Ptr, size: nat, cpu: nat)
    requires Aligned(h) && c in h && h[c].size >= size + HEADER && size % MIN_SIZE == 0
    ensures Aligned(SplitChunk(h, c, size, cpu))
  {
    var h' := SplitChunk(h, c, size, cpu);
    assert AlignedAt(h, c);
    forall e ensures AlignedAt(h', e) {
      assert AlignedAt(h, e);
    }
  }

  lemma {:induction false} Multiple(k: nat)
    ensures k * MIN_SIZE % MIN_SIZE == 0
  {
  }

  lemma {:induction false} NewAligned(h: Chunks, first: nat, n: nat, cpu: nat)
    requires Aligned(h) && n > 0
    ensures Aligned(h[first * PAGE_SIZE := Header(n * PAGE_SIZE - HEADER, cpu)])
  {
    var h' := h[first * PAGE_SIZE := Header(n * PAGE_SIZE - HEADER, cpu)];
    Multiple(first * 128);
    Multiple(n * 128 - 1);
    forall e ensures AlignedAt(h', e) {
      assert AlignedAt(h, e);
    }
  }

  lemma {:induction false} SplitLists(h: Chunks, free: Lists, remote: Lists, place: map<Ptr, Place>, u: nat, i: nat, size: nat)
    requires Disjoint(h) && ListsOk(h, free, remote, place) && u in free && i < |free[u]|
    requires free[u][i] in h && h[free[u][i]].size > size + HEADER
    ensures var l := free[u];
            var d := l[i] + HEADER + size;
            ListsOk(SplitChunk(h, l[i], size, u), free[u := l[..i] + [d] + l[i + 1..]], remote, place[d := Free][l[i] := Used])
  {
    var l := free[u];
    var c := l[i];
    var d := c + HEADER + size;
    var h1, l1, place1 := SplitChunk(h, c, size, u), l[..i] + l[i + 1..], place[c := Used];
    assert c in l && CpuLists(h, free, remote, place, u);
    DropAt(l, i);
    OneChanged(h, free, remote, place, h, free[u := l1], remote, place1, c, u);
    SplitKeeps(h, c, size, u);
    forall k | i < k < |l| ensures d < l[k] {
      assert Clear(h, c, l[k]) && l[k] in l;
    }
    assert CpuLists(h, free[u := l1], remote, place1, u);
    InsertSorted(l1, i, d);
    assert l1[..i] + [d] + l1[i..] == l[..i] + [d] + l[i + 1..];
    assert place1[d := Free] == place[d := Free][c := Used];
    OneChanged(h, free[u := l1], remote, place1, h1, free[u := l[..i] + [d] + l[i + 1..]], remote, place1[d := Free], d, u);
  }

  /** The two lists hold the same chunks between them as before. */
  ghost predicate Pooled(f0: seq<Ptr>, r0: seq<Ptr>, f: seq<Ptr>, r: seq<Ptr>) {
    forall x :: x in f || x in r <==> x in f0 || x in r0
  }

  /** The bytes of list l are those of the lists f0 and r0 before. */
  ghost predicate JoinedBytes(h0: Chunks, f0: seq<Ptr>, r0: seq<Ptr>, h: Chunks, l: seq<Ptr>) {
    forall a: nat :: ListBytes(h, l, a) <==> ListBytes(h0, f0, a) || ListBytes(h0, r0, a)
  }

  lemma {:induction false} JoinLists(h0: Chunks, f0: seq<Ptr>, r0: seq<Ptr>, l0: seq<Ptr>, h: Chunks, l: seq<Ptr>)
    requires SameListBytes(h0, l0, h, l) && forall x :: x in l0 <==> x in f0 || x in r0
    ensures JoinedBytes(h0, f0, r0, h, l)
  {
  }

  /** The blocks in use are the same, and their headers too. */
  ghost predicate UsedSame(h: Chunks, place: map<Ptr, Place>, h': Chunks, place': map<Ptr, Place>) {
    && place.Keys == h.Keys && place'.Keys == h'.Keys
    && (forall c :: c in h && place[c] == Used <==> c in h' && place'[c] == Used)
    && (forall c :: c in h && place[c] == Used ==> h'[c] == h[c])
  }

  /** The blocks in use are the same but for c, which is no longer in use. */
  ghost predicate UsedButOne(h: Chunks, place: map<Ptr, Place>, h': Chunks, place': map<Ptr, Place>, c: Ptr) {
    && place.Keys == h.Keys && place'.Keys == h'.Keys
    && (forall d :: d in h && place[d] == Used && d != c <==> d in h' && place'[d] == Used)
    && (forall d :: d in h && place[d] == Used && d != c ==> h'[d] == h[d])
  }

  lemma {:induction false} FreeKnown(h: Chunks, free: Lists, remote: Lists, place: map<Ptr, Place>, u: nat)
    requires ListsOk(h, free, remote, place) && u in free
    ensures AllIn(free[u], h.Keys)
    ensures Sorted(free[u]) && forall c :: c in free[u] ==> place[c] == Free && h[c].cpu == u
  {
    assert CpuLists(h, free, remote, place, u);
  }
}
