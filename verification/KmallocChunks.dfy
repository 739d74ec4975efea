/** The chunks of the kernel heap in kernel/mem.c: headers in memory, the bytes they cover, splitting and merging. */
module KmallocChunks {

  type Ptr = nat

  const HEADER: nat := 32
  const PAGE_SIZE: nat := 4096
  const MIN_SIZE: nat := 32

  /** struct kmalloc_header without its magic words and list links. */
  datatype Header = Header(size: nat, cpu: nat)

  type Chunks = map<Ptr, Header>

  /** One past the last byte of a chunk. */
  function End(h: Chunks, c: Ptr): Ptr
    requires c in h
  {
    c + HEADER + h[c].size
  }

  predicate In(h: Chunks, c: Ptr, a: nat) {
    c in h && c <= a < End(h, c)
  }

  /** If c is the lower of two chunks, it ends where d starts or before. */
  predicate Clear(h: Chunks, c: Ptr, d: Ptr) {
    c in h && d in h && c < d ==> End(h, c) <= d
  }

  ghost predicate Disjoint(h: Chunks) {
    forall c, d :: Clear(h, c, d)
  }

  /** Byte a belongs to a chunk, header included. */
  ghost predicate Covered(h: Chunks, a: nat) {
    exists c :: In(h, c, a)
  }

  ghost predicate SameBytes(h: Chunks, h': Chunks) {
    forall a: nat :: Covered(h, a) <==> Covered(h', a)
  }

  /** Byte a belongs to a chunk of list l. */
  ghost predicate ListBytes(h: Chunks, l: seq<Ptr>, a: nat) {
    exists c :: c in l && In(h, c, a)
  }

  predicate AlignedAt(h: Chunks, c: Ptr) {
    c in h ==> c % MIN_SIZE == 0 && h[c].size % MIN_SIZE == 0
  }

  /** Chunks start at multiples of 32 and so do their ends. */
  ghost predicate Aligned(h: Chunks) {
    forall c :: AlignedAt(h, c)
  }

  predicate Sorted(l: seq<Ptr>) {
    forall i, j :: 0 <= i < j < |l| ==> l[i] < l[j]
  }

  ghost predicate AllIn(l: seq<Ptr>, s: set<Ptr>) {
    forall c :: c in l ==> c in s
  }

  // ---------------------------------------------------------------------------------------------- splitting

  /** A chunk cut to `size` bytes of content, with a second chunk behind it. */
  function SplitChunk(h: Chunks, c: Ptr, size: nat, cpu: nat): Chunks
    requires c in h && h[c].size >= size + HEADER
  {
    h[c := Header(size, h[c].cpu)][c + HEADER + size := Header(h[c].size - size - HEADER, cpu)]
  }

  lemma {:induction false} SplitKeeps(h: Chunks, c: Ptr, size: nat, cpu: nat)
    requires Disjoint(h) && c in h && h[c].size >= size + HEADER
    ensures c + HEADER + size !in h
    ensures Disjoint(SplitChunk(h, c, size, cpu)) && SameBytes(h, SplitChunk(h, c, size, cpu))
  {
    var h', d := SplitChunk(h, c, size, cpu), c + HEADER + size;
    assert End(h', d) == End(h, c) && End(h', c) == d;
    assert Clear(h, c, d);
    forall e, f ensures Clear(h', e, f) {
      assert Clear(h, e, f) && Clear(h, c, f) && Clear(h, e, c) && Clear(h, c, e);
    }
    forall a: nat ensures Covered(h, a) <==> Covered(h', a) {
      if Covered(h, a) {
        var e :| In(h, e, a);
        assert In(h', e, a) || In(h', d, a);
      }
      if Covered(h', a) {
        var e :| In(h', e, a);
        assert In(h, e, a) || In(h, c, a);
      }
    }
  }

  // ---------------------------------------------------------------------------------------------- merging

  /** Chunk d absorbed by chunk c right before it. */
  function MergeChunk(h: Chunks, c: Ptr, d: Ptr): Chunks
    requires c in h && d in h
  {
    (h - {d})[c := Header(h[c].size + (h[d].size + HEADER), h[c].cpu)]
  }

  lemma {:induction false} MergeKeeps(h: Chunks, c: Ptr, d: Ptr)
    requires Disjoint(h) && c in h && d in h && End(h, c) == d
    ensures Disjoint(MergeChunk(h, c, d)) && SameBytes(h, MergeChunk(h, c, d))
    ensures MergeChunk(h, c, d).Keys == h.Keys - {d}
  {
    var h' := MergeChunk(h, c, d);
    assert End(h', c) == End(h, d);
    forall e, f ensures Clear(h', e, f) {
      assert Clear(h, e, f) && Clear(h, d, f) && Clear(h, c, f);
    }
    forall a: nat ensures Covered(h, a) <==> Covered(h', a) {
      if Covered(h, a) {
        var e :| In(h, e, a);
        assert In(h', e, a) || In(h', c, a);
      }
      if Covered(h', a) {
        var e :| In(h', e, a);
        assert In(h, e, a) || In(h, d, a);
      }
    }
  }

  lemma {:induction false} MergeList(h: Chunks, l: seq<Ptr>, i: nat, a: nat)
    requires Disjoint(h) && AllIn(l, h.Keys) && i + 1 < |l| && End(h, l[i]) == l[i + 1]
    ensures ListBytes(h, l, a) <==> ListBytes(MergeChunk(h, l[i], l[i + 1]), l[..i + 1] + l[i + 2..], a)
  {
    var c, d, h', l' := l[i], l[i + 1], MergeChunk(h, l[i], l[i + 1]), l[..i + 1] + l[i + 2..];
    assert l'[i] == c;
    assert forall e :: e in l && e != d ==> e in l' by {
      forall e | e in l && e != d ensures e in l' {
        var k :| 0 <= k < |l| && l[k] == e;
        assert if k <= i then l'[k] == e else l'[k - 1] == e;
      }
    }
    assert forall e :: e in l' ==> e in l;
    if ListBytes(h, l, a) {
      var e :| e in l && In(h, e, a);
      assert if e == c || e == d then In(h', c, a) else In(h', e, a);
    }
    if ListBytes(h', l', a) {
      var e :| e in l' && In(h', e, a);
      assert In(h, e, a) || (e == c && In(h, d, a));
    }
  }

  // ---------------------------------------------------------------------------------------------- fresh pages

  /** Byte a lies in one of the pages. */
  predicate InPages(pages: set<nat>, a: nat) {
    a / PAGE_SIZE in pages
  }

  function PageSet(first: nat, n: nat): (r: set<nat>)
    ensures forall p :: p in r <==> first <= p < first + n
  {
    if n == 0 then {} else PageSet(first, n - 1) + {first + n - 1}
  }

  /** The chunks tile the pages: disjoint, and every byte of every page is in a chunk. */
  ghost predicate Tiles(h: Chunks, pages: set<nat>) {
    Disjoint(h) && forall a: nat :: Covered(h, a) <==> InPages(pages, a)
  }

  lemma {:induction false} PageBytes(first: nat, n: nat, a: nat)
    ensures InPages(PageSet(first, n), a) <==> first * PAGE_SIZE <= a < (first + n) * PAGE_SIZE
  {
  }

  lemma {:induction false} NewChunk(h: Chunks, pages: set<nat>, first: nat, n: nat, cpu: nat)
    requires Tiles(h, pages) && n > 0 && PageSet(first, n) !! pages
    ensures first * PAGE_SIZE !in h
    ensures Tiles(h[first * PAGE_SIZE := Header(n * PAGE_SIZE - HEADER, cpu)], pages + PageSet(first, n))
  {
    var p := first * PAGE_SIZE;
    var h' := h[p := Header(n * PAGE_SIZE - HEADER, cpu)];
    forall a: nat ensures Covered(h, a) ==> !(p <= a < p + n * PAGE_SIZE) {
      PageBytes(first, n, a);
    }
    assert p in h ==> In(h, p, p);
    assert forall c :: c in h ==> In(h, c, c) && In(h, c, End(h, c) - 1);
    forall c | c in h ensures End(h, c) <= p || p + n * PAGE_SIZE <= c {
      Apart(h, c, p, p + n * PAGE_SIZE);
    }
    assert End(h', p) == p + n * PAGE_SIZE;
    forall c, d ensures Clear(h', c, d) {
      assert Clear(h, c, d);
    }
    forall a: nat ensures Covered(h', a) <==> InPages(pages + PageSet(first, n), a) {
      PageBytes(first, n, a);
      if Covered(h, a) {
        var c :| In(h, c, a);
        assert In(h', c, a);
      }
      if p <= a < p + n * PAGE_SIZE {
        assert In(h', p, a);
      }
      if Covered(h', a) {
        var c :| In(h', c, a);
        assert c == p || In(h, c, a);
      }
    }
  }

  lemma {:induction false} Apart(h: Chunks, c: Ptr, lo: nat, hi: nat)
    requires c in h && lo < hi && forall a: nat :: Covered(h, a) ==> !(lo <= a < hi)
    ensures End(h, c) <= lo || hi <= c
  {
    assert In(h, c, c) && Covered(h, c);
    assert c < lo < End(h, c) ==> In(h, c, lo) && Covered(h, lo);
  }
}
