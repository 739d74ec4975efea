/** What remove_process_memory_range and mprotect do to one range: cut it down to its part inside [start, end). */
module VmCarve {
  import opened Seqs
  import opened RbTree
  import opened VmSpace

  /** Range x of s0 was cut, and x' is one of its pieces; nothing else changed, and no address changed its mapping. */
  ghost predicate Trim(s0: Space, x: Ptr, s: Space, x': Ptr) {
    && x in s0 && x in s && x' in s && Disjoint(s)
    && (forall a :: At(s, a) == At(s0, a))
    && (forall y :: y in s0 && y != x ==> y in s && y != x' && s[y] == s0[y])
    && (forall y :: y in s && (y !in s0 || y == x) ==> s0[x].start <= s[y].start && s[y].end <= s0[x].end)
    && s[x'].flag == s0[x].flag
  }

  lemma {:induction false} TrimStart(s: Space, x: Ptr)
    requires Disjoint(s) && x in s
    ensures Trim(s, x, s, x)
  {
  }

  lemma {:induction false} TrimLower(s0: Space, x: Ptr, s: Space, x': Ptr, addr: int, y: Ptr)
    requires Trim(s0, x, s, x') && s[x'].start < addr < s[x'].end && y !in s
    ensures Trim(s0, x, Cut(s, x', addr, y), x')
  {
    CutSame(s, x', addr, y);
  }

  lemma {:induction false} TrimUpper(s0: Space, x: Ptr, s: Space, x': Ptr, addr: int, y: Ptr)
    requires Trim(s0, x, s, x') && s[x'].start < addr < s[x'].end && y !in s
    ensures Trim(s0, x, Cut(s, x', addr, y), y)
  {
    CutSame(s, x', addr, y);
  }

  /** The addresses of x inside [start, end) are gone, everything else is as it was. */
  ghost predicate Carved(s0: Space, x: Ptr, start: int, end: int, s: Space)
    requires x in s0
  {
    && Disjoint(s)
    && (forall y :: y in s0 && y != x ==> y in s && s[y] == s0[y])
    && (forall y :: y in s && (y !in s0 || y == x) ==> !Overlaps(s[y], start, end))
    && (forall a :: At(s, a) == if Covers(s0[x], a) && start <= a < end then None else At(s0, a))
  }

  lemma {:induction false} CarveDone(s0: Space, x: Ptr, s: Space, x': Ptr, start: int, end: int)
    requires Disjoint(s0) && Trim(s0, x, s, x') && Overlaps(s0[x], start, end)
    requires s[x'].start == if s0[x].start < start then start else s0[x].start
    requires s[x'].end == if end < s0[x].end then end else s0[x].end
    ensures Carved(s0, x, start, end, s - {x'})
  {
    DropGone(s, x');
    forall y | y in s - {x'} && (y !in s0 || y == x)
      ensures !Overlaps(s[y], start, end)
    {
      assert Clear(s, y, x');
    }
  }

  /** Part of [start, end) is unmapped, nothing outside it changed. */
  ghost predicate PartlyRemoved(s0: Space, s: Space, start: int, end: int) {
    forall a :: At(s, a) == At(s0, a) || (start <= a < end && At(s, a) == None)
  }

  /** Nothing of [start, end) is left when no range meets it. */
  lemma {:induction false} AllRemoved(s0: Space, s: Space, start: int, end: int)
    requires PartlyRemoved(s0, s, start, end) && forall y :: y in s ==> !Overlaps(s[y], start, end)
    ensures forall a :: At(s, a) == if start <= a < end then None else At(s0, a)
  {
    forall a
      ensures At(s, a) == if start <= a < end then None else At(s0, a)
    {
      if Mapped(s, a) {
        assert !Overlaps(s[Owner(s, a)], start, end);
      }
    }
  }

  ghost predicate ReadOnlyAt(s: Space, a: int) {
    At(s, a).Some? && !At(s, a).value.flag.prot.write
  }

  /** Some address that was mapped read-only in s0 is unmapped in s. */
  ghost predicate ReadOnlyGone(s0: Space, s: Space) {
    exists a :: ReadOnlyAt(s0, a) && At(s, a) == None
  }

  lemma {:induction false} CarveReadOnly(s0: Space, s: Space, x: Ptr, start: int, end: int, s': Space)
    requires Disjoint(s) && x in s && PartlyRemoved(s0, s, start, end) && Overlaps(s[x], start, end) && Carved(s, x, start, end, s')
    requires s[x].start < s[x].end && start < end
    ensures PartlyRemoved(s0, s', start, end)
    ensures ReadOnlyGone(s0, s') <==> ReadOnlyGone(s0, s) || !s[x].flag.prot.write
  {
    if ReadOnlyGone(s0, s) {
      var a :| ReadOnlyAt(s0, a) && At(s, a) == None;
      assert At(s', a) == None;
    }
    if !s[x].flag.prot.write {
      var a := if s[x].start < start then start else s[x].start;
      AtCovered(s, x, a);
      assert ReadOnlyAt(s0, a) && At(s', a) == None;
    }
    if ReadOnlyGone(s0, s') {
      var a :| ReadOnlyAt(s0, a) && At(s', a) == None;
      if At(s, a) != None {
        AtCovered(s, x, a);
      }
    }
  }
}
