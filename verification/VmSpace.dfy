/** The user address space of a process as kernel/process.c keeps it: a set of disjoint ranges.
    What it means is a partial function from addresses to (flags, memory object, object offset). */
module VmSpace {
  import opened Seqs
  import opened RbTree

  /** A memory object; 0 is NULL. */
  type Memobj = nat

  /** The bits under VR_PROT_MASK, or under VR_MAXPROT_MASK. */
  datatype Prot = Prot(read: bool, write: bool, exec: bool)

  /** The flag word of a range, its bits taken apart; `rest` stands for the bits not named. */
  datatype Flags = Flags(prot: Prot, maxprot: Prot, remote: bool, ioNocache: bool, reserved: bool, rest: nat)

  /** struct vm_range, without the fields that joining ranges does not compare. */
  datatype VmRange = VmRange(start: int, end: int, flag: Flags, memobj: Memobj, objoff: int)

  type Space = map<Ptr, VmRange>

  /** What is mapped at an address. */
  datatype Mapping = Mapping(flag: Flags, memobj: Memobj, off: int)

  predicate Covers(r: VmRange, a: int) {
    r.start <= a < r.end
  }

  predicate Overlaps(r: VmRange, start: int, end: int) {
    r.start < end && start < r.end
  }

  function View(r: VmRange, a: int): Mapping {
    Mapping(r.flag, r.memobj, if r.memobj == 0 then 0 else r.objoff + (a - r.start))
  }

  /** Ranges x and y share no address. */
  predicate Clear(s: Space, x: Ptr, y: Ptr) {
    x in s && y in s && x != y ==> s[x].end <= s[y].start || s[y].end <= s[x].start
  }

  /** Ranges are nonempty and share no address. */
  ghost predicate Disjoint(s: Space) {
    && (forall x :: x in s ==> s[x].start < s[x].end)
    && (forall x, y :: Clear(s, x, y))
  }

  ghost predicate Mapped(s: Space, a: int) {
    exists x :: x in s && Covers(s[x], a)
  }

  ghost function Owner(s: Space, a: int): (x: Ptr)
    requires Mapped(s, a)
    ensures x in s && Covers(s[x], a)
  {
    var x :| x in s && Covers(s[x], a);
    x
  }

  ghost function At(s: Space, a: int): Option<Mapping> {
    if Mapped(s, a) then Some(View(s[Owner(s, a)], a)) else None
  }

  lemma {:induction false} AtCovered(s: Space, x: Ptr, a: int)
    requires Disjoint(s) && x in s && Covers(s[x], a)
    ensures At(s, a) == Some(View(s[x], a))
  {
    assert Clear(s, x, Owner(s, a));
    assert Owner(s, a) == x;
  }

  /** A range cut at addr: x keeps the lower part, y gets the upper one. */
  ghost function Cut(s: Space, x: Ptr, addr: int, y: Ptr): Space
    requires x in s
  {
    var r := s[x];
    s[x := r.(end := addr)][y := r.(start := addr, objoff := if r.memobj == 0 then 0 else r.objoff + (addr - r.start))]
  }

  lemma {:induction false} CutDisjoint(s: Space, x: Ptr, addr: int, y: Ptr)
    requires Disjoint(s) && x in s && y !in s && s[x].start < addr < s[x].end
    ensures Disjoint(Cut(s, x, addr, y))
  {
    forall u, v ensures Clear(Cut(s, x, addr, y), u, v) {
      assert Clear(s, u, v) && Clear(s, x, v) && Clear(s, u, x);
    }
  }

  lemma {:induction false} CutSame(s: Space, x: Ptr, addr: int, y: Ptr)
    requires Disjoint(s) && x in s && y !in s && s[x].start < addr < s[x].end
    ensures Disjoint(Cut(s, x, addr, y))
    ensures forall a :: At(Cut(s, x, addr, y), a) == At(s, a)
  {
    var s' := Cut(s, x, addr, y);
    CutDisjoint(s, x, addr, y);
    forall a
      ensures At(s', a) == At(s, a)
    {
      if z :| z in s && Covers(s[z], a) {
        AtCovered(s, z, a);
        AtCovered(s', if z == x && addr <= a then y else z, a);
      } else {
        assert forall z :: z in s' ==> !Covers(s'[z], a) by {
          assert !Covers(s[x], a);
        }
      }
    }
  }

  /** May `low` swallow `high`? The test of join_process_memory_range. */
  predicate Joinable(low: VmRange, high: VmRange) {
    && low.end == high.start && low.flag == high.flag && low.memobj == high.memobj
    && (low.memobj != 0 ==> low.objoff + (low.end - low.start) == high.objoff)
  }

  ghost function Glue(s: Space, x: Ptr, y: Ptr): Space
    requires x in s && y in s
  {
    s[x := s[x].(end := s[y].end)] - {y}
  }

  lemma {:induction false} GlueDisjoint(s: Space, x: Ptr, y: Ptr)
    requires Disjoint(s) && x in s && y in s && x != y && s[x].end == s[y].start
    ensures Disjoint(Glue(s, x, y))
  {
    forall u, v ensures Clear(Glue(s, x, y), u, v) {
      assert Clear(s, u, v) && Clear(s, u, y) && Clear(s, y, v);
    }
  }

  lemma {:induction false} GlueSame(s: Space, x: Ptr, y: Ptr)
    requires Disjoint(s) && x in s && y in s && x != y && Joinable(s[x], s[y])
    ensures Disjoint(Glue(s, x, y))
    ensures forall a :: At(Glue(s, x, y), a) == At(s, a)
  {
    var s' := Glue(s, x, y);
    GlueDisjoint(s, x, y);
    forall a
      ensures At(s', a) == At(s, a)
    {
      if z :| z in s && Covers(s[z], a) {
        AtCovered(s, z, a);
        AtCovered(s', if z == y then x else z, a);
      } else {
        assert forall z :: z in s' ==> !Covers(s'[z], a) by {
          assert !Covers(s[x], a) && !Covers(s[y], a);
        }
      }
    }
  }

  lemma {:induction false} DropGone(s: Space, x: Ptr)
    requires Disjoint(s) && x in s
    ensures Disjoint(s - {x})
    ensures forall a :: At(s - {x}, a) == if Covers(s[x], a) then None else At(s, a)
  {
    var s' := s - {x};
    forall u, v ensures Clear(s', u, v) {
      assert Clear(s, u, v);
    }
    forall a
      ensures At(s', a) == if Covers(s[x], a) then None else At(s, a)
    {
      if z :| z in s' && Covers(s'[z], a) {
        AtCovered(s, z, a);
        AtCovered(s', z, a);
        assert Clear(s, x, z);
      } else if Mapped(s, a) {
        assert Owner(s, a) !in s' ;
      }
    }
  }

  /** Changing the flags of one range. */
  lemma {:induction false} RepaintView(s: Space, x: Ptr, flag: Flags)
    requires Disjoint(s) && x in s
    ensures var s' := s[x := s[x].(flag := flag)];
            && Disjoint(s')
            && forall a :: At(s', a) == if Covers(s[x], a) then Some(View(s[x], a).(flag := flag)) else At(s, a)
  {
    var s' := s[x := s[x].(flag := flag)];
    forall u, v ensures Clear(s', u, v) {
      assert Clear(s, u, v);
    }
    forall a
      ensures At(s', a) == if Covers(s[x], a) then Some(View(s[x], a).(flag := flag)) else At(s, a)
    {
      if z :| z in s && Covers(s[z], a) {
        AtCovered(s, z, a);
        AtCovered(s', z, a);
        assert Clear(s, x, z);
      } else {
        assert forall z :: z in s' ==> !Covers(s'[z], a) by {
          assert !Covers(s[x], a);
        }
      }
    }
  }

  /** A new range in free space. */
  lemma {:induction false} AddView(s: Space, x: Ptr, r: VmRange)
    requires Disjoint(s) && x !in s && r.start < r.end && forall y :: y in s ==> !Overlaps(s[y], r.start, r.end)
    ensures var s' := s[x := r];
            && Disjoint(s')
            && forall a :: At(s', a) == if Covers(r, a) then Some(View(r, a)) else At(s, a)
  {
    var s' := s[x := r];
    forall u, v ensures Clear(s', u, v) {
      assert Clear(s, u, v);
    }
    forall a
      ensures At(s', a) == if Covers(r, a) then Some(View(r, a)) else At(s, a)
    {
      if z :| z in s' && Covers(s'[z], a) {
        AtCovered(s', z, a);
        if z != x {
          assert s'[z] == s[z];
          AtCovered(s, z, a);
        }
      } else {
        assert forall z :: z in s ==> !Covers(s[z], a) by {
          assert forall z :: z in s ==> s'[z] == s[z];
        }
        assert s'[x] == r;
      }
    }
  }

  // ----- order -----

  /** The ranges in tree order, by ascending address. */
  ghost predicate Sorted(order: seq<Ptr>, s: Space) {
    && (forall x :: x in order <==> x in s)
    && (forall x :: x in s ==> s[x].start < s[x].end)
    && (forall i, j :: 0 <= i < j < |order| ==> s[order[i]].end <= s[order[j]].start)
  }

  lemma {:induction false} SortedDisjoint(order: seq<Ptr>, s: Space)
    requires Sorted(order, s)
    ensures Disjoint(s)
  {
    forall x, y ensures Clear(s, x, y) {
      if x in s && y in s && x != y {
        assert x in order && y in order;
        var i, j :| 0 <= i < |order| && 0 <= j < |order| && order[i] == x && order[j] == y;
      }
    }
  }

  lemma {:induction false} SortedNoDup(order: seq<Ptr>, s: Space)
    requires Sorted(order, s)
    ensures NoDup(order)
  {
    forall i, j | 0 <= i < j < |order|
      ensures order[i] != order[j]
    {
      assert order[i] in s && order[j] in s;
    }
    NoDupAt(order);
  }

  // ----- references -----

  ghost function Users(s: Space, m: Memobj): set<Ptr> {
    set x | x in s && s[x].memobj == m
  }

  /** Every memory object's count is the references held elsewhere plus one per range naming it. */
  ghost predicate RefsMatch(s: Space, refs: map<Memobj, int>, others: map<Memobj, int>) {
    && refs.Keys == others.Keys
    && (forall x :: x in s && s[x].memobj != 0 ==> s[x].memobj in refs)
    && (forall m :: m in refs ==> refs[m] == others[m] + |Users(s, m)|)
  }

  function Adjust(refs: map<Memobj, int>, m: Memobj, d: int): map<Memobj, int> {
    if m == 0 || m !in refs then refs else refs[m := refs[m] + d]
  }

  lemma {:induction false} RefsAdd(s: Space, x: Ptr, r: VmRange, refs: map<Memobj, int>, others: map<Memobj, int>)
    requires RefsMatch(s, refs, others) && x !in s && (r.memobj != 0 ==> r.memobj in refs) && 0 !in refs
    ensures RefsMatch(s[x := r], Adjust(refs, r.memobj, 1), others)
  {
    forall m | m in refs
      ensures |Users(s[x := r], m)| == |Users(s, m)| + if m == r.memobj then 1 else 0
    {
      UsersAdd(s, x, r, m);
    }
  }

  /** A reference held elsewhere becomes that of a new range. */
  lemma {:induction false} RefsHandOver(s: Space, x: Ptr, r: VmRange, refs: map<Memobj, int>, others: map<Memobj, int>)
    requires RefsMatch(s, refs, others) && x !in s && (r.memobj != 0 ==> r.memobj in refs) && 0 !in refs
    ensures RefsMatch(s[x := r], refs, Adjust(others, r.memobj, -1))
  {
    forall m | m in refs
      ensures |Users(s[x := r], m)| == |Users(s, m)| + if m == r.memobj then 1 else 0
    {
      UsersAdd(s, x, r, m);
    }
  }

  lemma {:induction false} UsersAdd(s: Space, x: Ptr, r: VmRange, m: Memobj)
    requires x !in s
    ensures |Users(s[x := r], m)| == |Users(s, m)| + if m == r.memobj then 1 else 0
  {
    assert Users(s[x := r], m) == if m == r.memobj then Users(s, m) + {x} else Users(s, m);
  }

  lemma {:induction false} RefsDrop(s: Space, x: Ptr, refs: map<Memobj, int>, others: map<Memobj, int>)
    requires RefsMatch(s, refs, others) && x in s && 0 !in refs
    ensures RefsMatch(s - {x}, Adjust(refs, s[x].memobj, -1), others)
  {
    var s' := s - {x};
    forall m | m in refs
      ensures |Users(s', m)| == |Users(s, m)| - if m == s[x].memobj then 1 else 0
    {
      assert Users(s', m) == Users(s, m) - {x};
    }
  }

  lemma {:induction false} RefsKeep(s: Space, x: Ptr, r: VmRange, refs: map<Memobj, int>, others: map<Memobj, int>)
    requires RefsMatch(s, refs, others) && x in s && r.memobj == s[x].memobj
    ensures RefsMatch(s[x := r], refs, others)
  {
    forall m | m in refs
      ensures Users(s[x := r], m) == Users(s, m)
    {
    }
  }

  /** Splitting and joining keep the counts right. */
  lemma {:induction false} CutRefs(s: Space, x: Ptr, addr: int, y: Ptr, refs: map<Memobj, int>, others: map<Memobj, int>)
    requires RefsMatch(s, refs, others) && x in s && y !in s && 0 !in refs
    ensures RefsMatch(Cut(s, x, addr, y), Adjust(refs, s[x].memobj, 1), others)
  {
    var r := s[x];
    var upper := r.(start := addr, objoff := if r.memobj == 0 then 0 else r.objoff + (addr - r.start));
    RefsKeep(s, x, r.(end := addr), refs, others);
    RefsAdd(s[x := r.(end := addr)], y, upper, refs, others);
  }

  lemma {:induction false} GlueRefs(s: Space, x: Ptr, y: Ptr, refs: map<Memobj, int>, others: map<Memobj, int>)
    requires RefsMatch(s, refs, others) && x in s && y in s && x != y && 0 !in refs
    ensures RefsMatch(Glue(s, x, y), Adjust(refs, s[y].memobj, -1), others)
  {
    RefsDrop(s, y, refs, others);
    RefsKeep(s - {y}, x, s[x].(end := s[y].end), Adjust(refs, s[y].memobj, -1), others);
    assert Glue(s, x, y) == (s - {y})[x := s[x].(end := s[y].end)];
  }

  // ----- protection bits -----

  /** The new flags in change_prot_process_memory_range. */
  function WithProt(flag: Flags, prot: Prot): Flags {
    flag.(prot := prot)
  }

  /** Flag word f is f0 with the protection bits of prot, and no other bit has changed. */
  predicate Reflagged(f0: Flags, f: Flags, prot: Prot) {
    && f.prot.read == prot.read && f.prot.write == prot.write && f.prot.exec == prot.exec
    && f.maxprot == f0.maxprot && f.remote == f0.remote && f.ioNocache == f0.ioNocache && f.reserved == f0.reserved && f.rest == f0.rest
  }

  /** Is nothing denied, that is, is protflags & ~VRFLAG_MAXPROT_TO_PROT(flag) zero? */
  predicate Allowed(flag: Flags, prot: Prot) {
    (prot.read ==> flag.maxprot.read) && (prot.write ==> flag.maxprot.write) && (prot.exec ==> flag.maxprot.exec)
  }

  /** May mprotect change this range? */
  predicate Changeable(flag: Flags) {
    !flag.remote && !flag.reserved && !flag.ioNocache
  }
}
