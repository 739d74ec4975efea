/** struct list_head: circular doubly linked lists (lib/include/list.h). A ring is the cyclic sequence of
    addresses that the next and prev pointers spell out. */
module ListHead {
  import opened Seqs

  type Ptr = nat

  datatype Link = Link(next: Ptr, prev: Ptr)

  type Links = map<Ptr, Link>

  function Succ(n: nat, i: nat): nat {
    if i + 1 < n then i + 1 else 0
  }

  /** The i-th element of s and the one after it point to each other. */
  ghost predicate Edge(l: Links, s: seq<Ptr>, i: nat)
    requires i < |s|
  {
    var x, y := s[i], s[Succ(|s|, i)];
    x in l && y in l && l[x].next == y && l[y].prev == x
  }

  /** s is linked in a circle. */
  ghost predicate Ring(l: Links, s: seq<Ptr>) {
    |s| > 0 && NoDup(s) && forall i {:trigger Edge(l, s, i)} :: 0 <= i < |s| ==> Edge(l, s, i)
  }

  function SetNext(l: Links, x: Ptr, n: Ptr): Links
    requires x in l
  {
    l[x := l[x].(next := n)]
  }

  function SetPrev(l: Links, x: Ptr, p: Ptr): Links
    requires x in l
  {
    l[x := l[x].(prev := p)]
  }

  /** INIT_LIST_HEAD */
  function Init(l: Links, x: Ptr): Links {
    l[x := Link(x, x)]
  }

  predicate IsEmpty(l: Links, x: Ptr)
    requires x in l
  {
    l[x].next == x
  }

  /** list_add_tail: x goes right before `at`. */
  function AddTail(l: Links, x: Ptr, at: Ptr): Links
    requires x in l && at in l && l[at].prev in l
  {
    var prev := l[at].prev;
    SetNext(SetPrev(SetNext(SetPrev(l, at, x), x, at), x, prev), prev, x)
  }

  /** __list_del_entry */
  function DelEntry(l: Links, x: Ptr): Links
    requires x in l && l[x].prev in l && l[x].next in l
  {
    SetNext(SetPrev(l, l[x].next, l[x].prev), l[x].prev, l[x].next)
  }

  /** What stands at position k of the ring, counting round to its first element. */
  function Wrap(s: seq<Ptr>, k: nat): Ptr
    requires s != [] && k <= |s|
  {
    if k == |s| then s[0] else s[k]
  }

  /** Only links of the ring s may differ. */
  ghost predicate Untouched(l: Links, l': Links, s: seq<Ptr>) {
    forall y :: y in l && y !in s ==> y in l' && l'[y] == l[y]
  }

  lemma {:induction false} RingAdd(l: Links, s: seq<Ptr>, x: Ptr, k: nat)
    requires Ring(l, s) && x in l && x !in s && 1 <= k <= |s|
    ensures var at := Wrap(s, k); at in l && l[at].prev in l && Ring(AddTail(l, x, at), s[..k] + [x] + s[k..])
    ensures Untouched(l, AddTail(l, x, Wrap(s, k)), s[..k] + [x] + s[k..])
  {
    var at := Wrap(s, k);
    assert Edge(l, s, k - 1);
    var l', s' := AddTail(l, x, at), s[..k] + [x] + s[k..];
    assert NoDup(s') by { NoDupInsert(s, x, k); }
    assert s'[k] == x && s'[k - 1] == s[k - 1] && s'[Succ(|s'|, k)] == at;
    forall i | 0 <= i < |s'|
      ensures Edge(l', s', i)
    {
      EdgeAdd(l, s, x, k, i);
    }
  }

  lemma {:induction false} NoDupInsert(s: seq<Ptr>, x: Ptr, k: nat)
    requires NoDup(s) && x !in s && k <= |s|
    ensures NoDup(s[..k] + [x] + s[k..])
  {
    assert s == s[..k] + s[k..];
    NoDupMiddle(s[..k], x, s[k..]);
  }

  lemma {:induction false} EdgeAdd(l: Links, s: seq<Ptr>, x: Ptr, k: nat, i: nat)
    requires Ring(l, s) && x in l && x !in s && 1 <= k <= |s| && i <= |s|
    requires Wrap(s, k) in l && l[Wrap(s, k)].prev == s[k - 1] && s[k - 1] in l
    ensures Edge(AddTail(l, x, Wrap(s, k)), s[..k] + [x] + s[k..], i)
  {
    var l', s' := AddTail(l, x, Wrap(s, k)), s[..k] + [x] + s[k..];
    NoDupAt(s);
    if i < k - 1 {
      assert Edge(l, s, i);
      assert s'[i] == s[i] && s'[i + 1] == s[i + 1];
    } else if i > k {
      assert Edge(l, s, i - 1);
      assert s'[i] == s[i - 1] && s'[Succ(|s'|, i)] == s[Succ(|s|, i - 1)];
    } else if i == k {
      assert s'[k] == x && s'[Succ(|s'|, k)] == Wrap(s, k);
    } else {
      assert s'[k] == x && s'[k - 1] == s[k - 1];
    }
  }

  lemma {:induction false} RingDel(l: Links, s: seq<Ptr>, k: nat)
    requires Ring(l, s) && 1 <= k < |s|
    ensures s[k] in l && l[s[k]].prev in l && l[s[k]].next in l && Ring(DelEntry(l, s[k]), s[..k] + s[k + 1..])
    ensures Untouched(l, DelEntry(l, s[k]), s[..k] + s[k + 1..])
  {
    assert Edge(l, s, k - 1) && Edge(l, s, k);
    var l', s' := DelEntry(l, s[k]), s[..k] + s[k + 1..];
    assert NoDup(s') by { NoDupRemove(s, k); }
    assert s'[k - 1] == s[k - 1] && s'[Succ(|s'|, k - 1)] == s[Succ(|s|, k)];
    forall i | 0 <= i < |s'|
      ensures Edge(l', s', i)
    {
      EdgeDel(l, s, k, i);
    }
  }

  lemma {:induction false} NoDupRemove(s: seq<Ptr>, k: nat)
    requires NoDup(s) && k < |s|
    ensures NoDup(s[..k] + s[k + 1..]) && s[k] !in s[..k] + s[k + 1..]
  {
    assert s == s[..k] + [s[k]] + s[k + 1..];
    NoDupMiddle(s[..k], s[k], s[k + 1..]);
  }

  lemma {:induction false} EdgeDel(l: Links, s: seq<Ptr>, k: nat, i: nat)
    requires Ring(l, s) && 1 <= k < |s| && i < |s| - 1
    requires s[k] in l && l[s[k]].prev == s[k - 1] && l[s[k]].next == s[Succ(|s|, k)] && s[k - 1] in l && s[Succ(|s|, k)] in l
    ensures Edge(DelEntry(l, s[k]), s[..k] + s[k + 1..], i)
  {
    var l', s' := DelEntry(l, s[k]), s[..k] + s[k + 1..];
    NoDupAt(s);
    if i < k - 1 {
      assert Edge(l, s, i);
      assert s'[i] == s[i] && s'[i + 1] == s[i + 1];
    } else if i >= k {
      assert Edge(l, s, i + 1);
      assert s'[i] == s[i + 1] && s'[Succ(|s'|, i)] == s[Succ(|s|, i + 1)];
    } else {
      assert s'[k - 1] == s[k - 1] && s'[Succ(|s'|, k - 1)] == s[Succ(|s|, k)];
    }
  }

  lemma {:induction false} RingFrame(l: Links, l': Links, s: seq<Ptr>)
    requires Ring(l, s) && forall x :: x in s && x in l ==> x in l' && l'[x] == l[x]
    ensures Ring(l', s)
  {
    forall i | 0 <= i < |s|
      ensures Edge(l', s, i)
    {
      assert Edge(l, s, i);
    }
  }

  /** A ring may be read from any of its elements. */
  lemma {:induction false} RingRotate(l: Links, s: seq<Ptr>, k: nat)
    requires Ring(l, s) && k < |s|
    ensures Ring(l, s[k..] + s[..k])
  {
    var s' := s[k..] + s[..k];
    forall i | 0 <= i < |s'|
      ensures Edge(l, s', i)
    {
      var j := Turned(|s|, k, i);
      assert Edge(l, s, j);
      assert s'[i] == s[j] && s'[Succ(|s'|, i)] == s[Succ(|s|, j)];
    }
    assert s == s[..k] + s[k..];
    NoDupAppend(s[..k], s[k..]);
    NoDupAppend(s[k..], s[..k]);
  }

  function Turned(n: nat, k: nat, i: nat): nat
    requires k < n && i < n
  {
    if k + i < n then k + i else k + i - n
  }

  // ----- the same with the ring in parts -----

  function HeadOf(p: seq<Ptr>, q: seq<Ptr>): Ptr
    requires p != []
  {
    if q == [] then p[0] else q[0]
  }

  lemma {:induction false} AddPart(l: Links, p: seq<Ptr>, x: Ptr, q: seq<Ptr>)
    requires Ring(l, p + q) && p != [] && x in l && x !in p && x !in q
    ensures var at := HeadOf(p, q);
            at in l && l[at].prev in l && Ring(AddTail(l, x, at), p + [x] + q) && Untouched(l, AddTail(l, x, at), p + [x] + q)
  {
    var r := p + q;
    assert r[..|p|] == p && r[|p|..] == q && Wrap(r, |p|) == HeadOf(p, q);
    RingAdd(l, r, x, |p|);
  }

  lemma {:induction false} DelPart(l: Links, p: seq<Ptr>, x: Ptr, q: seq<Ptr>)
    requires Ring(l, p + [x] + q) && p != []
    ensures x in l && l[x].prev in l && l[x].next in l && l[x].next == HeadOf(p, q)
    ensures Ring(DelEntry(l, x), p + q) && Untouched(l, DelEntry(l, x), p + q) && x !in p && x !in q
  {
    var r := p + [x] + q;
    assert r[..|p|] == p && r[|p|] == x && r[|p| + 1..] == q;
    RingDel(l, r, |p|);
    NoDupRemove(r, |p|);
    assert Edge(l, r, |p|);
    assert forall y :: y in p || y in q ==> y in p + q;
  }

  /** list_del_init */
  function DelInit(l: Links, x: Ptr): Links
    requires x in l && l[x].prev in l && l[x].next in l
  {
    Init(DelEntry(l, x), x)
  }

  lemma {:induction false} DelInitPart(l: Links, p: seq<Ptr>, x: Ptr, q: seq<Ptr>)
    requires Ring(l, p + [x] + q) && p != []
    ensures x in l && l[x].prev in l && l[x].next in l && Ring(DelInit(l, x), p + q) && DelInit(l, x)[x] == Link(x, x)
    ensures Untouched(l, DelInit(l, x), p + [x] + q)
  {
    DelPart(l, p, x, q);
    RingFrame(DelEntry(l, x), DelInit(l, x), p + q);
    assert forall y :: y in p + q ==> y in p + [x] + q;
  }

  /** A ring in two parts may be read from the second one. */
  lemma {:induction false} SwapParts(l: Links, p: seq<Ptr>, q: seq<Ptr>)
    requires Ring(l, p + q)
    ensures Ring(l, q + p)
  {
    var r := p + q;
    if q == [] {
      assert q + p == r;
    } else {
      RingRotate(l, r, |p|);
      assert r[|p|..] + r[..|p|] == q + p;
    }
  }

  /** list_move_tail */
  function MoveTail(l: Links, x: Ptr, at: Ptr): Links
    requires x in l && at in l && l[x].prev in l && l[x].next in l && DelEntry(l, x)[at].prev in l
  {
    AddTail(DelEntry(l, x), x, at)
  }
}
