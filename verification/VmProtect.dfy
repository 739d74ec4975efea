/** What mprotect promises about addresses, and the steps that establish it. */
module VmProtect {
  import opened Seqs
  import opened RbTree
  import opened VmSpace
  import opened VmCarve

  /** The access bits asked for at a are not all within the maximum there. */
  ghost predicate Denies(s: Space, a: int, prot: Prot) {
    At(s, a).Some? &&
    var m := At(s, a).value.flag.maxprot;
    (prot.read && !m.read) || (prot.write && !m.write) || (prot.exec && !m.exec)
  }

  /** May the protection at a be changed to prot? */
  ghost predicate MayProtect(s: Space, a: int, prot: Prot) {
    At(s, a).Some? && !Denies(s, a, prot) &&
    var flag := At(s, a).value.flag;
    !flag.remote && !flag.reserved && !flag.ioNocache
  }

  /** What is mapped at a is the same with the protection of prot. */
  ghost predicate Reprotected(s0: Space, s: Space, a: int, prot: Prot) {
    && At(s0, a).Some? && At(s, a).Some? && Reflagged(At(s0, a).value.flag, At(s, a).value.flag, prot)
    && At(s, a).value.memobj == At(s0, a).value.memobj && At(s, a).value.off == At(s0, a).value.off
  }

  /** Exactly the addresses of [start, mid) have the new protection; nothing else differs from s0. */
  ghost predicate ProtectedUpTo(s0: Space, s: Space, start: int, mid: int, prot: Prot) {
    && (forall a :: start <= a < mid ==> MayProtect(s0, a, prot) && Reprotected(s0, s, a, prot))
    && (forall a :: !(start <= a < mid) ==> At(s, a) == At(s0, a))
  }

  lemma {:induction false} SameProtected(s0: Space, s: Space, s': Space, start: int, mid: int, prot: Prot)
    requires ProtectedUpTo(s0, s, start, mid, prot) && forall a :: At(s', a) == At(s, a)
    ensures ProtectedUpTo(s0, s', start, mid, prot)
  {
    forall a | start <= a < mid ensures Reprotected(s0, s', a, prot) {
      assert Reprotected(s0, s, a, prot);
    }
  }

  /** Repainting the piece x that starts where the protected part ends. */
  lemma {:induction false} ExtendProtected(s0: Space, s: Space, x: Ptr, start: int, mid: int, prot: Prot, flag: Flags)
    requires Disjoint(s) && x in s && s[x].start == mid && start <= mid && ProtectedUpTo(s0, s, start, mid, prot)
    requires Allowed(s[x].flag, prot) && Changeable(s[x].flag) && Reflagged(s[x].flag, flag, prot)
    ensures ProtectedUpTo(s0, s[x := s[x].(flag := flag)], start, s[x].end, prot)
  {
    var s' := s[x := s[x].(flag := flag)];
    RepaintView(s, x, flag);
    forall a | start <= a < s[x].end
      ensures MayProtect(s0, a, prot) && Reprotected(s0, s', a, prot)
    {
      if mid <= a {
        AtCovered(s, x, a);
      }
    }
  }

  /** Where the scan stops, mprotect was asked for something it cannot do. */
  lemma {:induction false} Refused(s0: Space, s: Space, x: Ptr, start: int, mid: int, prot: Prot)
    requires Disjoint(s) && ProtectedUpTo(s0, s, start, mid, prot)
    requires x in s && Covers(s[x], mid) ==> !Allowed(s[x].flag, prot) || !Changeable(s[x].flag)
    requires (x !in s || !Covers(s[x], mid)) ==> !Mapped(s, mid)
    ensures !MayProtect(s0, mid, prot)
    ensures Denies(s0, mid, prot) <==> x in s && Covers(s[x], mid) && !Allowed(s[x].flag, prot)
  {
    if x in s && Covers(s[x], mid) {
      AtCovered(s, x, mid);
    }
  }

  const WORD := 0x1_0000_0000_0000_0000

  /** A sum or difference as the 64-bit word it is stored in. */
  function Wrap64(x: int): int {
    x % WORD
  }

  /** (len0 + PAGE_SIZE - 1) & PAGE_MASK in 64 bits. */
  function RoundedLen(len0: int): int {
    var t := Wrap64(len0 + 4095);
    t - t % 4096
  }

  /** The rounded length covers the requested one exactly when the addition does not wrap. Otherwise it
      is zero, and mprotect reports success without looking at a single address. */
  lemma {:induction false} RoundingExact(len0: int)
    requires 0 <= len0 < WORD
    ensures len0 <= RoundedLen(len0) <==> len0 <= 0xffff_ffff_ffff_f000
    ensures len0 > 0xffff_ffff_ffff_f000 ==> RoundedLen(len0) == 0
    ensures RoundedLen(len0) % 4096 == 0 && RoundedLen(len0) < len0 + 4096
  {
  }
}
