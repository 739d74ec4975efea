/** The core-dump layout of kernel/gencore.c: a counting pass sizes the chunk table, a second pass writes the program headers
    and a third fills the table. The page table and the ranges do not change between the passes. */
module GenCore {
  import opened Seqs

  const PAGE_SIZE: nat := 4096
  const EHDR_SIZE: nat := 64
  const PHDR_SIZE: nat := 56
  const TWO32: nat := 0x1_0000_0000
  const EFAULT: int := 14

  /** A memory range; `skip` is GENCORE_RANGE_IS_INACCESSIBLE, inUser whether it lies in the user region. */
  datatype Range = Range(start: nat, end: nat, skip: bool, demand: bool, inUser: bool, readable: bool, writable: bool, executable: bool)

  /** ihk_mc_pt_virt_to_phys */
  datatype Xlate = Phys(addr: nat) | Fail(error: int)

  /** struct coretable: addr 0 stands for a hole. */
  datatype Chunk = Chunk(addr: nat, len: nat)

  datatype Phdr = Unset | Note(offset: nat, size: nat) | Load(r: bool, w: bool, x: bool, offset: nat, vaddr: nat, size: nat)

  predicate RangeOk(r: Range) {
    r.start < r.end && r.start % PAGE_SIZE == 0 && r.end % PAGE_SIZE == 0
  }

  predicate RangesOk(rs: seq<Range>) {
    forall i :: 0 <= i < |rs| ==> RangeOk(rs[i])
  }

  // ---------------------------------------------------------------------------------------------- one demand-paged range

  /** The chunks from page p on, with a hole of `hole` bytes right before p. */
  function Pages(x: nat -> Xlate, p: nat, end: nat, hole: nat): seq<Chunk>
    decreases end - p
  {
    if p >= end then Hole(hole)
    else if x(p).Fail? then Pages(x, p + PAGE_SIZE, end, hole + PAGE_SIZE)
    else Hole(hole) + [Chunk(x(p).addr, PAGE_SIZE)] + Pages(x, p + PAGE_SIZE, end, 0)
  }

  function Hole(size: nat): seq<Chunk> {
    if size > 0 then [Chunk(0, size)] else []
  }

  /** What the counting pass adds for the pages from p on. */
  function Count(x: nat -> Xlate, p: nat, end: nat, prevzero: bool): nat
    decreases end - p
  {
    if p >= end then (if prevzero then 1 else 0)
    else if x(p).Fail? then Count(x, p + PAGE_SIZE, end, true)
    else (if prevzero then 1 else 0) + 1 + Count(x, p + PAGE_SIZE, end, false)
  }

  /** The counting pass reserves as many entries as the filling pass writes. */
  lemma {:induction false} CountsAgree(x: nat -> Xlate, p: nat, end: nat, hole: nat)
    ensures |Pages(x, p, end, hole)| == Count(x, p, end, hole > 0)
    decreases end - p
  {
    if p < end {
      if x(p).Fail? {
        CountsAgree(x, p + PAGE_SIZE, end, hole + PAGE_SIZE);
      } else {
        CountsAgree(x, p + PAGE_SIZE, end, 0);
      }
    }
  }

  function Total(cs: seq<Chunk>): nat {
    if cs == [] then 0 else cs[0].len + Total(cs[1..])
  }

  lemma {:induction false} TotalConcat(a: seq<Chunk>, b: seq<Chunk>)
    ensures Total(a + b) == Total(a) + Total(b)
    decreases |a|
  {
    if a == [] {
      assert a + b == b;
    } else {
      assert (a + b)[1..] == a[1..] + b && (a + b)[0] == a[0];
      TotalConcat(a[1..], b);
    }
  }

  /** The chunks of a range are as long as the range. */
  lemma {:induction false} PagesTotal(x: nat -> Xlate, p: nat, end: nat, hole: nat)
    requires p <= end && (end - p) % PAGE_SIZE == 0
    ensures Total(Pages(x, p, end, hole)) == hole + (end - p)
    decreases end - p
  {
    assert Total(Hole(hole)) == hole;
    if p < end {
      if x(p).Fail? {
        PagesTotal(x, p + PAGE_SIZE, end, hole + PAGE_SIZE);
      } else {
        PagesTotal(x, p + PAGE_SIZE, end, 0);
        var c, rest := Chunk(x(p).addr, PAGE_SIZE), Pages(x, p + PAGE_SIZE, end, 0);
        assert [c][1..] == [];
        TotalConcat(Hole(hole) + [c], rest);
        TotalConcat(Hole(hole), [c]);
      }
    }
  }

  /** Where byte `off` of the file image comes from: a byte of memory or a hole. */
  datatype Origin = Byte(addr: nat) | Zero | Outside

  function At(cs: seq<Chunk>, off: nat): Origin {
    if cs == [] then Outside
    else if off < cs[0].len then (if cs[0].addr == 0 then Zero else Byte(cs[0].addr + off))
    else At(cs[1..], off - cs[0].len)
  }

  /** Where the byte at virtual address va lives. A page at physical address 0 cannot be told from a hole in the table. */
  function Source(x: nat -> Xlate, va: nat): Origin {
    var page := va / PAGE_SIZE * PAGE_SIZE;
    if x(page).Fail? || x(page).addr == 0 then Zero else Byte(x(page).addr + va % PAGE_SIZE)
  }

  lemma {:induction false} AtConcat(a: seq<Chunk>, b: seq<Chunk>, off: nat)
    ensures At(a + b, off) == if off < Total(a) then At(a, off) else At(b, off - Total(a))
    decreases |a|
  {
    if a == [] {
      assert a + b == b;
    } else {
      assert (a + b)[1..] == a[1..] + b && (a + b)[0] == a[0];
      if off >= a[0].len {
        AtConcat(a[1..], b, off - a[0].len);
      }
    }
  }

  /** Looking up a byte in a hole, a chunk and what follows. */
  lemma {:induction false} AtAfterHole(hole: nat, c: Chunk, rest: seq<Chunk>, off: nat)
    ensures At(Hole(hole) + [c] + rest, off)
            == if off < hole then Zero
               else if off < hole + c.len then (if c.addr == 0 then Zero else Byte(c.addr + (off - hole)))
               else At(rest, off - hole - c.len)
  {
    AtConcat(Hole(hole) + [c], rest, off);
    AtConcat(Hole(hole), [c], off);
    TotalConcat(Hole(hole), [c]);
    assert [c][1..] == [] && Total(Hole(hole)) == hole && Total([c]) == c.len;
  }

  /** Byte va - p of a demand-paged range's chunks is the byte of memory at va, or a hole if va's page is not there. */
  lemma {:induction false} PagesAt(x: nat -> Xlate, p: nat, end: nat, hole: nat, off: nat)
    requires p % PAGE_SIZE == 0 && end % PAGE_SIZE == 0 && p <= end && off < hole + (end - p)
    ensures At(Pages(x, p, end, hole), off) == if off < hole then Zero else Source(x, p + (off - hole))
    decreases end - p
  {
    if p < end {
      if x(p).Fail? {
        PagesAt(x, p + PAGE_SIZE, end, hole + PAGE_SIZE, off);
        if hole <= off < hole + PAGE_SIZE {
          SamePage(p, off - hole);
        }
      } else {
        AtAfterHole(hole, Chunk(x(p).addr, PAGE_SIZE), Pages(x, p + PAGE_SIZE, end, 0), off);
        if off >= hole + PAGE_SIZE {
          PagesAt(x, p + PAGE_SIZE, end, 0, off - hole - PAGE_SIZE);
        } else if off >= hole {
          SamePage(p, off - hole);
        }
      }
    }
  }

  lemma {:induction false} SamePage(p: nat, d: nat)
    requires p % PAGE_SIZE == 0 && d < PAGE_SIZE
    ensures (p + d) / PAGE_SIZE * PAGE_SIZE == p && (p + d) % PAGE_SIZE == d
  {
  }

  // ---------------------------------------------------------------------------------------------- all ranges

  /** The address of a range that is not demand-paged: one chunk, a hole for a range without access. */
  function Fixed(x: nat -> Xlate, linear: nat -> nat, r: Range): nat {
    if !r.inUser then linear(r.start) else if x(r.start).Phys? then x(r.start).addr else 0
  }

  function RangeChunks(x: nat -> Xlate, linear: nat -> nat, r: Range): seq<Chunk> {
    if r.skip then [] else if r.demand then Pages(x, r.start, r.end, 0)
    else [Chunk(Fixed(x, linear, r), Size(r))]
  }

  function Table(x: nat -> Xlate, linear: nat -> nat, rs: seq<Range>): seq<Chunk> {
    if rs == [] then [] else RangeChunks(x, linear, rs[0]) + Table(x, linear, rs[1..])
  }

  function RangeCount(x: nat -> Xlate, r: Range): nat {
    if r.skip then 0 else if r.demand then Count(x, r.start, r.end, false) else 1
  }

  function CountAll(x: nat -> Xlate, rs: seq<Range>): nat {
    if rs == [] then 0 else RangeCount(x, rs[0]) + CountAll(x, rs[1..])
  }

  function Segs(rs: seq<Range>): nat {
    if rs == [] then 0 else (if rs[0].skip then 0 else 1) + Segs(rs[1..])
  }

  /** Program headers of the ranges, from file offset `off`, an unsigned int. */
  function Headers(rs: seq<Range>, off: nat): seq<Phdr> {
    if rs == [] then []
    else if rs[0].skip then Headers(rs[1..], off)
    else
      var r := rs[0];
      [Load(r.readable, r.writable, r.executable, off, r.start, Size(r))] + Headers(rs[1..], Wrap(off + Size(r)))
  }

  lemma {:induction false} TableCount(x: nat -> Xlate, linear: nat -> nat, rs: seq<Range>)
    ensures |Table(x, linear, rs)| == CountAll(x, rs)
    decreases |rs|
  {
    if rs != [] {
      CountsAgree(x, rs[0].start, rs[0].end, 0);
      TableCount(x, linear, rs[1..]);
    }
  }

  lemma {:induction false} RangeTotal(x: nat -> Xlate, linear: nat -> nat, r: Range)
    requires RangeOk(r)
    ensures Total(RangeChunks(x, linear, r)) == if r.skip then 0 else r.end - r.start
  {
    if !r.skip {
      if r.demand {
        PagesTotal(x, r.start, r.end, 0);
      } else {
        assert RangeChunks(x, linear, r)[1..] == [];
      }
    }
  }

  lemma {:induction false} TableConcat(x: nat -> Xlate, linear: nat -> nat, a: seq<Range>, b: seq<Range>)
    ensures Table(x, linear, a + b) == Table(x, linear, a) + Table(x, linear, b)
    decreases |a|
  {
    if a == [] {
      assert a + b == b;
    } else {
      assert (a + b)[1..] == a[1..] + b && (a + b)[0] == a[0];
      TableConcat(x, linear, a[1..], b);
    }
  }

  /** The chunks of the ranges before are whole pages. */
  lemma {:induction false} TableWholePages(x: nat -> Xlate, linear: nat -> nat, rs: seq<Range>)
    requires RangesOk(rs)
    ensures Total(Table(x, linear, rs)) % PAGE_SIZE == 0
    decreases |rs|
  {
    if rs != [] {
      assert RangeOk(rs[0]);
      RangeTotal(x, linear, rs[0]);
      TableWholePages(x, linear, rs[1..]);
      TotalConcat(RangeChunks(x, linear, rs[0]), Table(x, linear, rs[1..]));
    }
  }

  function Size(r: Range): nat {
    if r.start < r.end then r.end - r.start else 0
  }

  /** The bytes of the ranges that are dumped. */
  function Bytes(rs: seq<Range>): nat {
    if rs == [] then 0 else (if rs[0].skip then 0 else Size(rs[0])) + Bytes(rs[1..])
  }

  lemma {:induction false} TableBytes(x: nat -> Xlate, linear: nat -> nat, rs: seq<Range>)
    requires RangesOk(rs)
    ensures Total(Table(x, linear, rs)) == Bytes(rs)
    decreases |rs|
  {
    if rs != [] {
      assert RangeOk(rs[0]);
      RangeTotal(x, linear, rs[0]);
      TotalConcat(RangeChunks(x, linear, rs[0]), Table(x, linear, rs[1..]));
      TableBytes(x, linear, rs[1..]);
    }
  }

  /** unsigned int arithmetic */
  function Wrap(n: nat): nat {
    n % TWO32
  }

  /** The header of a range after the ranges `pre` names the bytes before it, modulo 2^32. */
  lemma {:induction false} HeaderOffset(pre: seq<Range>, r: Range, post: seq<Range>, off: nat)
    requires !r.skip && off == Wrap(off)
    ensures Segs(pre) < |Headers(pre + [r] + post, off)|
    ensures Headers(pre + [r] + post, off)[Segs(pre)]
            == Load(r.readable, r.writable, r.executable, Wrap(off + Bytes(pre)), r.start, Size(r))
    decreases |pre|
  {
    var rs := pre + [r] + post;
    if pre == [] {
      assert rs[0] == r;
    } else {
      assert rs[1..] == pre[1..] + [r] + post && rs[0] == pre[0];
      if pre[0].skip {
        HeaderOffset(pre[1..], r, post, off);
      } else {
        ModAdd(off + Size(pre[0]), 0);
        HeaderOffset(pre[1..], r, post, Wrap(off + Size(pre[0])));
        ModAdd(off + Size(pre[0]), Bytes(pre[1..]));
      }
    }
  }

  lemma {:induction false} ModAdd(a: nat, b: nat)
    ensures Wrap(Wrap(a) + b) == Wrap(a + b)
  {
    var q := a / TWO32;
    assert a == q * TWO32 + a % TWO32;
    assert (a % TWO32 + b) % TWO32 == (a % TWO32 + b + q * TWO32) % TWO32 by {
      ModShift(a % TWO32 + b, q);
    }
  }

  lemma {:induction false} ModShift(a: nat, q: nat)
    ensures (a + q * TWO32) % TWO32 == a % TWO32
    decreases q
  {
    if q > 0 {
      ModShift(a + TWO32, q - 1);
    }
  }

  // ---------------------------------------------------------------------------------------------- the image

  function AlignPage(n: nat): (r: nat)
    ensures r % PAGE_SIZE == 0 && n <= r < n + PAGE_SIZE
  {
    (n + PAGE_SIZE - 1) / PAGE_SIZE * PAGE_SIZE
  }

  /** The offset after the ELF header and the program headers. */
  function NoteOffset(rs: seq<Range>): nat {
    EHDR_SIZE + PHDR_SIZE * (1 + Segs(rs))
  }

  /** The offset of the first range: the NOTE segment is padded to a page boundary. */
  function FirstOffset(rs: seq<Range>, noteSize: nat): nat {
    AlignPage(noteSize + NoteOffset(rs))
  }

  /** The three chunks before the ranges, at addresses eh, ph and note. */
  function Front(rs: seq<Range>, noteSize: nat, eh: nat, ph: nat, note: nat): seq<Chunk> {
    [Chunk(eh, EHDR_SIZE), Chunk(ph, PHDR_SIZE * (1 + Segs(rs))), Chunk(note, FirstOffset(rs, noteSize) - NoteOffset(rs))]
  }

  lemma {:induction false} FrontTotal(rs: seq<Range>, noteSize: nat, eh: nat, ph: nat, note: nat)
    ensures Total(Front(rs, noteSize, eh, ph, note)) == FirstOffset(rs, noteSize)
  {
    var f := Front(rs, noteSize, eh, ph, note);
    assert f[1..] == [f[1], f[2]] && [f[1], f[2]][1..] == [f[2]] && [f[2]][1..] == [];
    assert Total([f[2]]) == f[2].len;
    assert Total([f[1], f[2]]) == f[1].len + f[2].len;
  }

  /** p_offset of the range after `pre`, as the header pass computes it. */
  function FileOffset(rs: seq<Range>, pre: seq<Range>, noteSize: nat): nat {
    Wrap(Wrap(FirstOffset(rs, noteSize)) + Bytes(pre))
  }

  /** p_offset is page-aligned; it is the summed length of all earlier chunks exactly when that sum fits an unsigned int. */
  lemma {:induction false} OffsetExact(x: nat -> Xlate, linear: nat -> nat, rs: seq<Range>, pre: seq<Range>, noteSize: nat, eh: nat, ph: nat, note: nat)
    requires RangesOk(pre)
    ensures var before := Total(Front(rs, noteSize, eh, ph, note) + Table(x, linear, pre));
            && before % PAGE_SIZE == 0 && FileOffset(rs, pre, noteSize) == Wrap(before)
            && (FileOffset(rs, pre, noteSize) == before <==> before < TWO32)
  {
    BeforeTotal(x, linear, rs, pre, noteSize, eh, ph, note);
    PageSum(FirstOffset(rs, noteSize), Bytes(pre));
    ModAdd(FirstOffset(rs, noteSize), Bytes(pre));
    WrapSmall(FirstOffset(rs, noteSize) + Bytes(pre));
  }

  lemma {:induction false} BeforeTotal(x: nat -> Xlate, linear: nat -> nat, rs: seq<Range>, pre: seq<Range>, noteSize: nat, eh: nat, ph: nat, note: nat)
    requires RangesOk(pre)
    ensures Total(Front(rs, noteSize, eh, ph, note) + Table(x, linear, pre)) == FirstOffset(rs, noteSize) + Bytes(pre)
    ensures Bytes(pre) % PAGE_SIZE == 0
  {
    FrontTotal(rs, noteSize, eh, ph, note);
    TotalConcat(Front(rs, noteSize, eh, ph, note), Table(x, linear, pre));
    TableBytes(x, linear, pre);
    TableWholePages(x, linear, pre);
  }

  lemma {:induction false} PageSum(f: nat, b: nat)
    requires f % PAGE_SIZE == 0 && b % PAGE_SIZE == 0
    ensures (f + b) % PAGE_SIZE == 0
  {
  }

  lemma {:induction false} WrapSmall(n: nat)
    ensures Wrap(n) == n <==> n < TWO32
  {
  }

  /** Behind a range of 4 GiB the offset wraps: the next range gets the same p_offset as the first. */
  lemma {:induction false} OffsetWraps()
    ensures var r1 := Range(0, TWO32, false, true, true, true, true, false);
            var r2 := Range(TWO32, TWO32 + PAGE_SIZE, false, true, true, true, true, false);
            RangesOk([r1, r2]) && FileOffset([r1, r2], [], 0) == FileOffset([r1, r2], [r1], 0) == PAGE_SIZE
  {
    var r1 := Range(0, TWO32, false, true, true, true, true, false);
    var r2 := Range(TWO32, TWO32 + PAGE_SIZE, false, true, true, true, true, false);
    assert [r1, r2][1..] == [r2] && [r2][1..] == [] && [r1][1..] == [];
    assert Segs([r2]) == 1 && Segs([r1, r2]) == 2;
    assert Bytes([]) == 0 && Bytes([r1]) == TWO32;
  }

  /** Byte d from physical address a on; address 0 stands for a hole. */
  function From(a: nat, d: nat): Origin {
    if a == 0 then Zero else Byte(a + d)
  }

  /** The byte of the file for virtual address va of range r: the byte of memory, for a demand-paged range; else the one that
      lies as far behind the range's first byte, which the page table or, outside the user region, the linear map gives. */
  function Expected(x: nat -> Xlate, linear: nat -> nat, r: Range, va: nat): Origin
    requires r.start <= va
  {
    if r.demand then Source(x, va)
    else if !r.inUser then From(linear(r.start), va - r.start)
    else
      match x(r.start)
      case Phys(a) => From(a, va - r.start)
      case Fail(_) => Zero
  }

  lemma {:induction false} RangeAt(x: nat -> Xlate, linear: nat -> nat, r: Range, va: nat)
    requires RangeOk(r) && !r.skip && r.start <= va < r.end
    ensures At(RangeChunks(x, linear, r), va - r.start) == Expected(x, linear, r, va)
  {
    if r.demand {
      PagesAt(x, r.start, r.end, 0, va - r.start);
    }
  }

  /** The page table maps the pages of r one behind the other from the first one on, or has none of them. */
  ghost predicate Contiguous(x: nat -> Xlate, r: Range) {
    if x(r.start).Phys? && x(r.start).addr != 0
    then forall p :: r.start <= p < r.end && p % PAGE_SIZE == 0 ==> x(p) == Phys(x(r.start).addr + (p - r.start))
    else forall p :: r.start <= p < r.end && p % PAGE_SIZE == 0 ==> x(p).Fail? || x(p).addr == 0
  }

  /** The first byte of a user range is the byte of memory. For a range that is not demand-paged all bytes are exactly when the
      page table maps the range contiguously. */
  lemma {:induction false} FixedExact(x: nat -> Xlate, linear: nat -> nat, r: Range)
    requires RangeOk(r) && r.inUser
    ensures Expected(x, linear, r, r.start) == Source(x, r.start)
    ensures !r.demand ==> ((forall va :: r.start <= va < r.end ==> Expected(x, linear, r, va) == Source(x, va)) <==> Contiguous(x, r))
  {
    SamePage(r.start, 0);
    if !r.demand && forall va :: r.start <= va < r.end ==> Expected(x, linear, r, va) == Source(x, va) {
      forall p | r.start <= p < r.end && p % PAGE_SIZE == 0
        ensures if x(r.start).Phys? && x(r.start).addr != 0 then x(p) == Phys(x(r.start).addr + (p - r.start)) else x(p).Fail? || x(p).addr == 0
      {
        SamePage(p, 0);
        assert Expected(x, linear, r, p) == Source(x, p);
      }
    }
    if !r.demand && Contiguous(x, r) {
      forall va | r.start <= va < r.end ensures Expected(x, linear, r, va) == Source(x, va) {
        PageOf(r.start, va);
      }
    }
  }

  lemma {:induction false} PageOf(start: nat, va: nat)
    requires start % PAGE_SIZE == 0 && start <= va
    ensures var p := va / PAGE_SIZE * PAGE_SIZE; start <= p <= va && p % PAGE_SIZE == 0 && va - p == va % PAGE_SIZE
  {
  }

  /** While the image before a range stays below 2^32 bytes, byte p_offset + (va - p_vaddr) of the file is the byte of memory
      at va, or a hole where va has no page. */
  lemma {:induction false} ImageAt(x: nat -> Xlate, linear: nat -> nat, pre: seq<Range>, r: Range, post: seq<Range>,
                                   noteSize: nat, eh: nat, ph: nat, note: nat, va: nat)
    requires RangesOk(pre) && RangeOk(r) && !r.skip && r.start <= va < r.end
    requires var rs := pre + [r] + post; Total(Front(rs, noteSize, eh, ph, note) + Table(x, linear, pre)) < TWO32
    ensures var rs := pre + [r] + post;
            var hs := Headers(rs, Wrap(FirstOffset(rs, noteSize)));
            && Segs(pre) < |hs| && hs[Segs(pre)].Load? && hs[Segs(pre)].vaddr == r.start
            && At(Front(rs, noteSize, eh, ph, note) + Table(x, linear, rs), hs[Segs(pre)].offset + (va - r.start)) == Expected(x, linear, r, va)
  {
    var rs := pre + [r] + post;
    var f := Front(rs, noteSize, eh, ph, note);
    OffsetExact(x, linear, rs, pre, noteSize, eh, ph, note);
    ModAdd(FirstOffset(rs, noteSize), 0);
    HeaderOffset(pre, r, post, Wrap(FirstOffset(rs, noteSize)));
    RangeTotal(x, linear, r);
    RangeAt(x, linear, r, va);
    TableAt(x, linear, f, pre, r, post, va - r.start);
  }

  /** The memory of the process is in the file: for every range of the user region that is demand-paged or mapped contiguously,
      byte p_offset + (va - p_vaddr) is the byte of memory at va. */
  lemma {:induction false} ImageIsMemory(x: nat -> Xlate, linear: nat -> nat, pre: seq<Range>, r: Range, post: seq<Range>,
                                         noteSize: nat, eh: nat, ph: nat, note: nat, va: nat)
    requires RangesOk(pre) && RangeOk(r) && !r.skip && r.start <= va < r.end
    requires var rs := pre + [r] + post; Total(Front(rs, noteSize, eh, ph, note) + Table(x, linear, pre)) < TWO32
    requires r.demand || (r.inUser && Contiguous(x, r))
    ensures var rs := pre + [r] + post;
            var hs := Headers(rs, Wrap(FirstOffset(rs, noteSize)));
            && Segs(pre) < |hs| && hs[Segs(pre)].Load?
            && At(Front(rs, noteSize, eh, ph, note) + Table(x, linear, rs), hs[Segs(pre)].offset + (va - r.start)) == Source(x, va)
  {
    ImageAt(x, linear, pre, r, post, noteSize, eh, ph, note, va);
    if !r.demand {
      FixedExact(x, linear, r);
    }
  }

  /** The front of the file: the ELF header at offset 0, the program headers behind it, and the note where its header says. */
  lemma {:induction false} FrontAt(rs: seq<Range>, noteSize: nat, eh: nat, ph: nat, note: nat, rest: seq<Chunk>, d: nat)
    requires eh != 0 && ph != 0 && note != 0
    ensures var f := Front(rs, noteSize, eh, ph, note) + rest;
            && (d < 64 ==> At(f, d) == Byte(eh + d))
            && (d < 56 * (1 + Segs(rs)) ==> At(f, 64 + d) == Byte(ph + d))
            && (d < noteSize ==> At(f, NoteOffset(rs) + d) == Byte(note + d))
  {
    var g := Front(rs, noteSize, eh, ph, note);
    var f := g + rest;
    assert f[0] == g[0] && f[1..][0] == g[1] && f[1..][1..][0] == g[2];
    assert d < 56 * (1 + Segs(rs)) ==> At(f, 64 + d) == At(f[1..], d);
    assert d < noteSize ==> At(f, NoteOffset(rs) + d) == At(f[1..], PHDR_SIZE * (1 + Segs(rs)) + d) == At(f[1..][1..], d);
  }

  /** Byte d of a range's chunks comes after everything in front of them. */
  lemma {:induction false} TableAt(x: nat -> Xlate, linear: nat -> nat, f: seq<Chunk>, pre: seq<Range>, r: Range, post: seq<Range>, d: nat)
    requires d < Total(RangeChunks(x, linear, r))
    ensures At(f + Table(x, linear, pre + [r] + post), Total(f + Table(x, linear, pre)) + d) == At(RangeChunks(x, linear, r), d)
  {
    var t, c, rest := Table(x, linear, pre), RangeChunks(x, linear, r), Table(x, linear, post);
    assert pre + [r] + post == pre + ([r] + post) && ([r] + post)[1..] == post;
    TableConcat(x, linear, pre, [r] + post);
    assert f + Table(x, linear, pre + [r] + post) == (f + t) + (c + rest);
    AtConcat(f + t, c + rest, Total(f + t) + d);
    AtConcat(c, rest, d);
  }

  // ---------------------------------------------------------------------------------------------- the passes

  /** The counting loop over a demand-paged range. */
  method CountPages(x: nat -> Xlate, start: nat, end: nat) returns (n: nat)
    ensures n == Count(x, start, end, false)
  {
    n := 0;
    var p, prevzero := start, false;
    while p < end
      invariant n + Count(x, p, end, prevzero) == Count(x, start, end, false)
      decreases end - p
    {
      if x(p).Fail? {
        prevzero := true;
      } else {
        if prevzero {
          n := n + 1;
        }
        n := n + 1;
        prevzero := false;
      }
      p := p + PAGE_SIZE;
    }
    if prevzero {
      n := n + 1;
    }
  }

  /** The first pass: the number of chunks and of segments. */
  method CountPass(x: nat -> Xlate, rs: seq<Range>) returns (chunks: nat, segs: nat)
    ensures chunks == 3 + CountAll(x, rs) && segs == 1 + Segs(rs)
  {
    chunks, segs := 3, 1;
    var k := 0;
    assert rs[0..] == rs;
    while k < |rs|
      invariant 0 <= k <= |rs|
      invariant chunks + CountAll(x, rs[k..]) == 3 + CountAll(x, rs) && segs + Segs(rs[k..]) == 1 + Segs(rs)
    {
      var r := rs[k];
      assert rs[k..][1..] == rs[k + 1..];
      k := k + 1;
      if r.skip {
        continue;
      }
      if r.demand {
        var n := CountPages(x, r.start, r.end);
        chunks := chunks + n;
      } else {
        chunks := chunks + 1;
      }
      segs := segs + 1;
    }
  }

  /** The second pass: writes the program header of every dumped range from ph[1] on, to the last entry. */
  method HeaderPass(rs: seq<Range>, offset0: nat, ph: array<Phdr>)
    requires ph.Length == 1 + Segs(rs)
    modifies ph
    ensures ph[..] == [old(ph[0])] + Headers(rs, offset0)
  {
    var i, k, offset: nat := 1, 0, offset0;
    assert rs[0..] == rs && ph[..1] == [ph[0]];
    while k < |rs|
      invariant 0 <= k <= |rs| && 1 <= i && i + Segs(rs[k..]) == ph.Length
      invariant ph[..i] + Headers(rs[k..], offset) == [old(ph[0])] + Headers(rs, offset0)
    {
      var r := rs[k];
      assert rs[k..][1..] == rs[k + 1..];
      k := k + 1;
      if r.skip {
        continue;
      }
      ghost var done := ph[..i];
      ph[i] := Load(r.readable, r.writable, r.executable, offset, r.start, Size(r));
      assert ph[..i + 1] == done + [ph[i]];
      i := i + 1;
      offset := Wrap(offset + Size(r));
    }
    assert ph[..] == ph[..i];
  }

  /** The filling loop over a demand-paged range: from entry i0 of the table to just before entry i. */
  method FillPages(x: nat -> Xlate, start: nat, end: nat, ct: array<Chunk>, i0: nat) returns (i: nat)
    requires i0 + Count(x, start, end, false) <= ct.Length
    modifies ct
    ensures i == i0 + Count(x, start, end, false)
    ensures ct[..i] == old(ct[..i0]) + Pages(x, start, end, 0)
  {
    i := i0;
    var p, prevzero, size: nat := start, false, 0;
    while p < end
      invariant i <= ct.Length && prevzero == (size > 0)
      invariant i + Count(x, p, end, prevzero) == i0 + Count(x, start, end, false)
      invariant ct[..i] + Pages(x, p, end, size) == old(ct[..i0]) + Pages(x, start, end, 0)
      decreases end - p
    {
      if x(p).Fail? {
        size := if !prevzero then PAGE_SIZE else size + PAGE_SIZE;
        prevzero := true;
      } else {
        ghost var rest := Pages(x, p + PAGE_SIZE, end, 0);
        if prevzero {
          i := Put(ct, i, Chunk(0, size), [Chunk(x(p).addr, PAGE_SIZE)] + rest);
        }
        i := Put(ct, i, Chunk(x(p).addr, PAGE_SIZE), rest);
        prevzero, size := false, 0;
      }
      p := p + PAGE_SIZE;
    }
    if prevzero {
      i := Put(ct, i, Chunk(0, size), []);
    }
  }

  /** Writes one entry of the table. */
  method Put(ct: array<Chunk>, i0: nat, c: Chunk, ghost rest: seq<Chunk>) returns (i: nat)
    requires i0 < ct.Length
    modifies ct
    ensures i == i0 + 1 && ct[..i] == old(ct[..i0]) + [c]
    ensures ct[..i] + rest == old(ct[..i0]) + ([c] + rest)
  {
    ct[i0] := c;
    i := i0 + 1;
  }

  /** The error that ends the third pass: the first range that is not demand-paged and whose address cannot be had. */
  function FirstError(x: nat -> Xlate, rs: seq<Range>): int {
    if rs == [] then 0
    else if FixedFails(x, rs[0]) then x(rs[0].start).error
    else FirstError(x, rs[1..])
  }

  predicate FixedFails(x: nat -> Xlate, r: Range) {
    !r.skip && !r.demand && r.inUser && x(r.start).Fail? && x(r.start).error != -EFAULT
  }

  /** gencore fails exactly when a dumped user range that is not demand-paged starts at an address whose translation fails other
      than with -EFAULT, and then with the first such error. */
  lemma {:induction false} FirstErrorExact(x: nat -> Xlate, rs: seq<Range>)
    requires forall p :: x(p).Fail? ==> x(p).error != 0
    ensures FirstError(x, rs) == 0 <==>
      forall i :: 0 <= i < |rs| && !rs[i].skip && !rs[i].demand && rs[i].inUser && x(rs[i].start).Fail? ==> x(rs[i].start).error == -EFAULT
    ensures FirstError(x, rs) != 0 ==>
      exists i :: 0 <= i < |rs| && FirstError(x, rs[..i]) == 0 && x(rs[i].start) == Fail(FirstError(x, rs)) && FirstError(x, rs) != -EFAULT
    decreases |rs|
  {
    if rs != [] {
      FirstErrorExact(x, rs[1..]);
      if FixedFails(x, rs[0]) {
        assert rs[..0] == [];
      } else if FirstError(x, rs[1..]) != 0 {
        var i :| 0 <= i < |rs[1..]| && FirstError(x, rs[1..][..i]) == 0 && x(rs[1..][i].start) == Fail(FirstError(x, rs[1..]))
                 && FirstError(x, rs[1..]) != -EFAULT;
        assert rs[..i + 1][1..] == rs[1..][..i] && rs[..i + 1][0] == rs[0] && rs[1..][i] == rs[i + 1];
      }
    }
  }

  /** One round of the third pass: the entries of range r, from entry i0 on. */
  method FillRange(x: nat -> Xlate, linear: nat -> nat, r: Range, ct: array<Chunk>, i0: nat) returns (error: int, i: nat)
    requires i0 + RangeCount(x, r) <= ct.Length
    modifies ct
    ensures error == if FixedFails(x, r) then x(r.start).error else 0
    ensures !FixedFails(x, r) ==> i == i0 + RangeCount(x, r) && ct[..i] == old(ct[..i0]) + RangeChunks(x, linear, r)
  {
    error, i := 0, i0;
    if r.skip {
      return;
    }
    if r.demand {
      i := FillPages(x, r.start, r.end, ct, i0);
    } else {
      var phys := 0;
      if r.inUser {
        match x(r.start) {
          case Phys(addr) => phys := addr;
          case Fail(e) =>
            if e != -EFAULT {
              error := e;
              return;
            }
        }
      } else {
        phys := linear(r.start);
      }
      i := Put(ct, i0, Chunk(phys, Size(r)), []);
    }
  }

  /** What is left of the third pass before and after range k. */
  lemma {:induction false} PassNext(x: nat -> Xlate, linear: nat -> nat, rs: seq<Range>, k: nat, done: seq<Chunk>)
    requires k < |rs|
    ensures done + Table(x, linear, rs[k..]) == done + RangeChunks(x, linear, rs[k]) + Table(x, linear, rs[k + 1..])
    ensures CountAll(x, rs[k..]) == RangeCount(x, rs[k]) + CountAll(x, rs[k + 1..])
    ensures FirstError(x, rs[k..]) == if FixedFails(x, rs[k]) then x(rs[k].start).error else FirstError(x, rs[k + 1..])
  {
    assert rs[k..][1..] == rs[k + 1..];
    var c, rest := RangeChunks(x, linear, rs[k]), Table(x, linear, rs[k + 1..]);
    assert done + c + rest == done + (c + rest);
  }

  /** The third pass: fills the table from entry 3, exactly to its end. */
  method TablePass(x: nat -> Xlate, linear: nat -> nat, rs: seq<Range>, ct: array<Chunk>) returns (error: int)
    requires ct.Length == 3 + CountAll(x, rs) && forall p :: x(p).Fail? ==> x(p).error != 0
    modifies ct
    ensures error == FirstError(x, rs)
    ensures error == 0 ==> ct[..] == old(ct[..3]) + Table(x, linear, rs)
  {
    var i: nat, k := 3, 0;
    error := 0;
    assert rs[0..] == rs;
    while k < |rs|
      invariant 0 <= k <= |rs| && i + CountAll(x, rs[k..]) == ct.Length
      invariant FirstError(x, rs[k..]) == FirstError(x, rs) && error == 0
      invariant ct[..i] + Table(x, linear, rs[k..]) == old(ct[..3]) + Table(x, linear, rs)
    {
      ghost var done := ct[..i];
      PassNext(x, linear, rs, k, done);
      error, i := FillRange(x, linear, rs[k], ct, i);
      if error != 0 {
        return;
      }
      k := k + 1;
    }
    assert ct[..] == ct[..i];
  }

  /** The four allocations of gencore, in order: None where one fails. */
  datatype Allocs = Allocs(eh: Option<nat>, ph: Option<nat>, note: Option<nat>, ct: Option<nat>)

  const ENOMEM: int := 12
  const EINVAL: int := 22

  /** The error gencore returns; `space` is None for a process without an address space. */
  function GenError(x: nat -> Xlate, space: Option<seq<Range>>, mem: Allocs): int {
    if space.None? then -EINVAL
    else if mem.eh.None? || mem.ph.None? || mem.note.None? || mem.ct.None? then -ENOMEM
    else FirstError(x, space.value)
  }

  /** kfree of a pointer that may be NULL. */
  function Freed(kept: set<nat>, p: Option<nat>): set<nat> {
    if p.Some? then kept - {p.value} else kept
  }

  /** gencore; `kept` are the blocks it has allocated and not freed. */
  method Generate(x: nat -> Xlate, linear: nat -> nat, space: Option<seq<Range>>, noteSize: nat, mem: Allocs)
    returns (error: int, kept: set<nat>, ph: array<Phdr>, ct: array<Chunk>)
    requires forall p :: x(p).Fail? ==> x(p).error != 0
    ensures error == GenError(x, space, mem)
    ensures error != 0 ==> kept == {}
    ensures error == 0 ==>
      && ph[..] == [Note(NoteOffset(space.value), noteSize)] + Headers(space.value, Wrap(FirstOffset(space.value, noteSize)))
      && ct[..] == Front(space.value, noteSize, mem.eh.value, mem.ph.value, mem.note.value) + Table(x, linear, space.value)
      && ct.Length >= 3 && kept == {mem.ct.value, ct[0].addr, ct[1].addr, ct[2].addr}
  {
    ph, ct, kept := new Phdr[0], new Chunk[0], {};
    if space.None? {
      return -EINVAL, kept, ph, ct;
    }
    var eh, tbl, note, core := None, None, None, None;
    error, eh, tbl, note, core, ph, ct := BuildCore(x, linear, space.value, noteSize, mem);
    kept := Block(eh) + Block(tbl) + Block(note) + Block(core);
    if error != 0 {
      kept := Freed(Freed(Freed(Freed(kept, eh), core), tbl), note);
    }
  }

  function Block(p: Option<nat>): set<nat> {
    if p.Some? then {p.value} else {}
  }

  /** gencore up to its failure label: the blocks allocated so far, each None as long as its pointer is NULL. */
  method BuildCore(x: nat -> Xlate, linear: nat -> nat, rs: seq<Range>, noteSize: nat, mem: Allocs)
    returns (error: int, eh: Option<nat>, tbl: Option<nat>, note: Option<nat>, core: Option<nat>, ph: array<Phdr>, ct: array<Chunk>)
    requires forall p :: x(p).Fail? ==> x(p).error != 0
    ensures error == GenError(x, Some(rs), mem)
    ensures error == 0 ==> Allocs(eh, tbl, note, core) == mem
    ensures error == 0 ==>
      && ph[..] == [Note(NoteOffset(rs), noteSize)] + Headers(rs, Wrap(FirstOffset(rs, noteSize)))
      && ct[..] == Front(rs, noteSize, mem.eh.value, mem.ph.value, mem.note.value) + Table(x, linear, rs)
  {
    ph, ct := new Phdr[0], new Chunk[0];
    tbl, note, core, error := None, None, None, -ENOMEM;
    var chunks, segs := CountPass(x, rs);
    eh := mem.eh;
    if eh.None? {
      return;
    }
    var offset := EHDR_SIZE + PHDR_SIZE * segs;
    tbl := mem.ph;
    if tbl.None? {
      return;
    }
    var alignedNote := AlignPage(noteSize + offset) - offset;
    note := mem.note;
    if note.None? {
      return;
    }
    ph := FillHeaders(rs, noteSize, segs, offset, alignedNote);
    core := mem.ct;
    if core.None? {
      return;
    }
    error, ct := FillTable(x, linear, rs, chunks, [Chunk(eh.value, EHDR_SIZE), Chunk(tbl.value, PHDR_SIZE * segs), Chunk(note.value, alignedNote)]);
  }

  /** The program headers: the NOTE segment's, and one for each range. */
  method FillHeaders(rs: seq<Range>, noteSize: nat, segs: nat, offset: nat, alignedNote: nat) returns (ph: array<Phdr>)
    requires segs == 1 + Segs(rs)
    ensures ph[..] == [Note(offset, noteSize)] + Headers(rs, Wrap(offset + alignedNote))
  {
    ph := new Phdr[segs](_ => Unset);
    ph[0] := Note(offset, noteSize);
    HeaderPass(rs, Wrap(offset + alignedNote), ph);
  }

  /** The chunk table behind its three front entries. */
  method FillTable(x: nat -> Xlate, linear: nat -> nat, rs: seq<Range>, chunks: nat, front: seq<Chunk>) returns (error: int, ct: array<Chunk>)
    requires chunks == 3 + CountAll(x, rs) && |front| == 3 && forall p :: x(p).Fail? ==> x(p).error != 0
    ensures error == FirstError(x, rs)
    ensures error == 0 ==> ct[..] == front + Table(x, linear, rs)
  {
    ct := new Chunk[chunks](_ => Chunk(0, 0));
    ct[0], ct[1], ct[2] := front[0], front[1], front[2];
    assert ct[..3] == front;
    error := TablePass(x, linear, rs, ct);
  }

  /** freecore, on the table at address `table`: of the blocks `kept`, those that are left. */
  method FreeCore(ct: array<Chunk>, table: nat, kept: set<nat>) returns (left: set<nat>)
    requires ct.Length >= 3
    ensures left == kept - {table, ct[0].addr, ct[1].addr, ct[2].addr}
  {
    left := kept - {ct[2].addr};
    left := left - {ct[1].addr};
    left := left - {ct[0].addr};
    left := left - {table};
  }

  /** Whatever the outcome, gencore and the freecore that follows its success leave no block allocated. */
  method GenerateAndFree(x: nat -> Xlate, linear: nat -> nat, space: Option<seq<Range>>, noteSize: nat, mem: Allocs)
    returns (error: int, left: set<nat>)
    requires forall p :: x(p).Fail? ==> x(p).error != 0
    ensures error == GenError(x, space, mem) && left == {}
  {
    var ph, ct;
    error, left, ph, ct := Generate(x, linear, space, noteSize, mem);
    if error == 0 {
      left := FreeCore(ct, mem.ct.value, left);
    }
  }
}
