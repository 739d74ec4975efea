/** The priority list of kernel/plist.c: node_list holds all entries by ascending priority, first come first
    served within one; prio_list holds the first entry of each priority. */
module Plist {
  import opened Seqs
  import opened ListHead

  type Prios = map<Ptr, int>

  datatype Prev = Start | After(p: int)

  ghost predicate HasPrio(prio: Prios, s: seq<Ptr>) {
    forall x :: x in s ==> x in prio
  }

  ghost predicate Ascending(prio: Prios, s: seq<Ptr>)
    requires HasPrio(prio, s)
  {
    forall i, j :: InOrder(prio, s, i, j)
  }

  predicate InOrder(prio: Prios, s: seq<Ptr>, i: int, j: int) {
    0 <= i < j < |s| && s[i] in prio && s[j] in prio ==> prio[s[i]] <= prio[s[j]]
  }

  /** The entries whose priority differs from that of the entry before them. */
  ghost function FirstsFrom(prio: Prios, prev: Prev, s: seq<Ptr>): seq<Ptr>
    requires HasPrio(prio, s)
    decreases |s|
  {
    if s == [] then []
    else (if prev == After(prio[s[0]]) then [] else [s[0]]) + FirstsFrom(prio, After(prio[s[0]]), s[1..])
  }

  ghost function Firsts(prio: Prios, s: seq<Ptr>): seq<Ptr>
    requires HasPrio(prio, s)
  {
    FirstsFrom(prio, Start, s)
  }

  ghost function LastPrio(prio: Prios, prev: Prev, s: seq<Ptr>): Prev
    requires HasPrio(prio, s)
  {
    if s == [] then prev else After(prio[s[|s| - 1]])
  }

  lemma {:induction false} FirstsConcat(prio: Prios, prev: Prev, a: seq<Ptr>, b: seq<Ptr>)
    requires HasPrio(prio, a) && HasPrio(prio, b)
    ensures HasPrio(prio, a + b)
    ensures FirstsFrom(prio, prev, a + b) == FirstsFrom(prio, prev, a) + FirstsFrom(prio, LastPrio(prio, prev, a), b)
    decreases |a|
  {
    if a == [] {
      assert a + b == b;
    } else {
      var p, t := After(prio[a[0]]), a[1..];
      assert (a + b)[1..] == t + b && (a + b)[0] == a[0];
      FirstsConcat(prio, p, t, b);
      assert LastPrio(prio, p, t) == LastPrio(prio, prev, a);
      var h, x, y := if prev == p then [] else [a[0]], FirstsFrom(prio, p, t), FirstsFrom(prio, LastPrio(prio, p, t), b);
      assert h + (x + y) == h + x + y;
    }
  }

  lemma {:induction false} FirstsMembers(prio: Prios, prev: Prev, s: seq<Ptr>)
    requires HasPrio(prio, s)
    ensures forall x :: x in FirstsFrom(prio, prev, s) ==> x in s
    decreases |s|
  {
    if s != [] {
      FirstsMembers(prio, After(prio[s[0]]), s[1..]);
    }
  }

  /** Where the previous priority does not occur, it does not matter. */
  lemma {:induction false} FirstsFresh(prio: Prios, prev: Prev, prev': Prev, s: seq<Ptr>)
    requires HasPrio(prio, s) && (s != [] ==> prev != After(prio[s[0]]) && prev' != After(prio[s[0]]))
    ensures FirstsFrom(prio, prev, s) == FirstsFrom(prio, prev', s)
    ensures s != [] ==> FirstsFrom(prio, prev, s) != [] && FirstsFrom(prio, prev, s)[0] == s[0]
  {
  }

  // ----- insertion -----

  /** x after every entry of at most its priority, before every other. */
  ghost predicate Splits(prio: Prios, x: Ptr, a: seq<Ptr>, b: seq<Ptr>)
    requires x in prio && HasPrio(prio, a) && HasPrio(prio, b)
  {
    (forall y :: y in a ==> prio[y] <= prio[x]) && (forall y :: y in b ==> prio[x] < prio[y])
  }

  lemma {:induction false} SplitAt(prio: Prios, x: Ptr, s: seq<Ptr>) returns (k: nat)
    requires x in prio && HasPrio(prio, s) && Ascending(prio, s)
    ensures k <= |s| && HasPrio(prio, s[..k]) && HasPrio(prio, s[k..]) && Splits(prio, x, s[..k], s[k..])
  {
    k := 0;
    while k < |s| && prio[s[k]] <= prio[x]
      invariant k <= |s| && forall i :: 0 <= i < k ==> prio[s[i]] <= prio[x]
    {
      k := k + 1;
    }
    forall y | y in s[k..] ensures prio[x] < prio[y] {
      var j :| k <= j < |s| && s[j] == y;
      assert InOrder(prio, s, k, j);
    }
  }

  /** How the first entries split, and what a new entry adds to them. */
  lemma {:induction false} FirstsInsert(prio: Prios, x: Ptr, a: seq<Ptr>, b: seq<Ptr>)
    requires x in prio && HasPrio(prio, a) && HasPrio(prio, b) && Splits(prio, x, a, b)
    ensures HasPrio(prio, a + b) && HasPrio(prio, a + [x] + b)
    ensures var fa, fb := Firsts(prio, a), FirstsFrom(prio, LastPrio(prio, Start, a), b);
            && Firsts(prio, a + b) == fa + fb
            && Firsts(prio, a + [x] + b) == (if LastPrio(prio, Start, a) == After(prio[x]) then fa + fb else fa + [x] + fb)
            && (b != [] ==> fb != [] && fb[0] == b[0]) && (b == [] ==> fb == [])
            && (forall y :: y in fa ==> y in a) && (forall y :: y in fb ==> y in b)
  {
    var la := LastPrio(prio, Start, a);
    var fa, fb := Firsts(prio, a), FirstsFrom(prio, la, b);
    FirstsConcat(prio, Start, a, b);
    FirstsConcat(prio, Start, a, [x]);
    FirstsConcat(prio, Start, a + [x], b);
    assert LastPrio(prio, Start, a + [x]) == After(prio[x]);
    assert b != [] ==> b[0] in b;
    assert a != [] ==> a[|a| - 1] in a;
    FirstsFresh(prio, la, After(prio[x]), b);
    FirstsMembers(prio, Start, a);
    FirstsMembers(prio, la, b);
    assert FirstsFrom(prio, la, [x]) == if la == After(prio[x]) then [] else [x];
    assert fa + [] == fa;
  }

  // ----- removal -----

  /** What the first entries become when x leaves: if it heads its priority, the next entry takes its place,
      or nothing does if that one already heads its own. */
  lemma {:induction false} FirstsRemove(prio: Prios, a: seq<Ptr>, x: Ptr, b: seq<Ptr>)
    requires HasPrio(prio, a + [x] + b) && Ascending(prio, a + [x] + b)
    ensures HasPrio(prio, a) && HasPrio(prio, b) && x in prio && HasPrio(prio, a + b)
    ensures var fa, fb := Firsts(prio, a), FirstsFrom(prio, After(prio[x]), b);
            var heads := LastPrio(prio, Start, a) != After(prio[x]);
            && Firsts(prio, a + [x] + b) == (if heads then fa + [x] + fb else fa + fb)
            && (!heads ==> Firsts(prio, a + b) == fa + fb)
            && (heads && b != [] && prio[b[0]] == prio[x] ==> Firsts(prio, a + b) == fa + [b[0]] + fb)
            && (heads && b != [] && prio[b[0]] != prio[x] ==> Firsts(prio, a + b) == fa + fb && fb != [] && fb[0] == b[0])
            && (heads && b == [] ==> Firsts(prio, a + b) == fa && fb == [])
            && (forall y :: y in fa ==> y in a) && (forall y :: y in fb ==> y in b)
  {
    NewMembers(a, x, b);
    FirstsAround(prio, a, x, b);
    FirstsMembers(prio, Start, a);
    FirstsMembers(prio, After(prio[x]), b);
    var la := LastPrio(prio, Start, a);
    if b != [] && la != After(prio[x]) {
      RunHead(prio, a, x, b);
      var fa, fb := Firsts(prio, a), FirstsFrom(prio, After(prio[x]), b);
      if prio[b[0]] == prio[x] {
        assert fa + ([b[0]] + fb) == fa + [b[0]] + fb;
      } else {
        FirstsFresh(prio, la, After(prio[x]), b);
      }
    }
  }

  lemma {:induction false} FirstsAround(prio: Prios, a: seq<Ptr>, x: Ptr, b: seq<Ptr>)
    requires HasPrio(prio, a) && HasPrio(prio, b) && x in prio
    ensures HasPrio(prio, a + b) && HasPrio(prio, a + [x] + b)
    ensures Firsts(prio, a + b) == Firsts(prio, a) + FirstsFrom(prio, LastPrio(prio, Start, a), b)
    ensures var fa, fb := Firsts(prio, a), FirstsFrom(prio, After(prio[x]), b);
            Firsts(prio, a + [x] + b) == if LastPrio(prio, Start, a) != After(prio[x]) then fa + [x] + fb else fa + fb
  {
    var la := LastPrio(prio, Start, a);
    FirstsConcat(prio, Start, a, b);
    FirstsConcat(prio, Start, a, [x]);
    FirstsConcat(prio, Start, a + [x], b);
    assert LastPrio(prio, Start, a + [x]) == After(prio[x]);
    assert FirstsFrom(prio, la, [x]) == if la == After(prio[x]) then [] else [x];
    assert Firsts(prio, a) + [] == Firsts(prio, a);
  }

  /** When x heads its priority, the entry behind it continues that priority or heads the next. */
  lemma {:induction false} RunHead(prio: Prios, a: seq<Ptr>, x: Ptr, b: seq<Ptr>)
    requires HasPrio(prio, a) && HasPrio(prio, b) && x in prio && HasPrio(prio, a + [x] + b) && Ascending(prio, a + [x] + b)
    requires b != [] && LastPrio(prio, Start, a) != After(prio[x])
    ensures b[0] in prio && LastPrio(prio, Start, a) != After(prio[b[0]])
    ensures prio[b[0]] == prio[x] ==>
              FirstsFrom(prio, LastPrio(prio, Start, a), b) == [b[0]] + FirstsFrom(prio, After(prio[x]), b)
  {
    var s, la := a + [x] + b, LastPrio(prio, Start, a);
    assert b[0] in b && s[|a|] == x && s[|a| + 1] == b[0] && InOrder(prio, s, |a|, |a| + 1);
    if a != [] {
      assert a[|a| - 1] in a && s[|a| - 1] == a[|a| - 1] && InOrder(prio, s, |a| - 1, |a|);
    }
    assert prio[b[0]] == prio[x] ==> FirstsFrom(prio, After(prio[x]), b) == [] + FirstsFrom(prio, After(prio[b[0]]), b[1..]);
  }

  /** Strictly ascending priorities, all above p (if any). */
  ghost predicate Strict(prio: Prios, prev: Prev, f: seq<Ptr>) {
    && HasPrio(prio, f)
    && (forall i :: 0 <= i < |f| ==> f[i] in prio && (prev.After? ==> prev.p < prio[f[i]]))
    && (forall i, j :: 0 <= i < j < |f| ==> f[i] in prio && f[j] in prio && prio[f[i]] < prio[f[j]])
  }

  lemma {:induction false} StrictCons(prio: Prios, prev: Prev, x: Ptr, g: seq<Ptr>)
    requires x in prio && Strict(prio, After(prio[x]), g) && (prev.After? ==> prev.p < prio[x])
    ensures Strict(prio, prev, [x] + g)
  {
  }

  lemma {:induction false} FirstsStrict(prio: Prios, prev: Prev, s: seq<Ptr>)
    requires HasPrio(prio, s) && Ascending(prio, s) && (s != [] && prev.After? ==> prev.p <= prio[s[0]])
    ensures Strict(prio, prev, FirstsFrom(prio, prev, s))
    decreases |s|
  {
    if s != [] {
      var p, t := After(prio[s[0]]), s[1..];
      assert HasPrio(prio, t);
      forall i, j ensures InOrder(prio, t, i, j) {
        assert InOrder(prio, s, i + 1, j + 1);
      }
      assert InOrder(prio, s, 0, 1);
      FirstsStrict(prio, p, t);
      if prev == p {
        assert FirstsFrom(prio, prev, s) == FirstsFrom(prio, p, t);
      } else {
        StrictCons(prio, prev, s[0], FirstsFrom(prio, p, t));
      }
    }
  }

  /** Every priority present has its first entry. */
  lemma {:induction false} FirstsCover(prio: Prios, prev: Prev, s: seq<Ptr>, y: Ptr) returns (z: Ptr)
    requires HasPrio(prio, s) && y in s && prev != After(prio[y])
    ensures z in FirstsFrom(prio, prev, s) && z in prio && prio[z] == prio[y]
    decreases |s|
  {
    if prio[y] == prio[s[0]] {
      z := s[0];
      assert FirstsFrom(prio, prev, s)[0] == z;
    } else {
      z := FirstsCover(prio, After(prio[s[0]]), s[1..], y);
      assert forall w :: w in FirstsFrom(prio, After(prio[s[0]]), s[1..]) ==> w in FirstsFrom(prio, prev, s);
    }
  }

  /** Where the search over prio_list stops: right behind the first entries of a. */
  lemma {:induction false} SearchStops(prio: Prios, x: Ptr, fa: seq<Ptr>, fb: seq<Ptr>, j: nat)
    requires x in prio && Strict(prio, Start, fa + fb) && HasPrio(prio, fa) && HasPrio(prio, fb) && Splits(prio, x, fa, fb)
    requires j <= |fa + fb| && (forall i :: 0 <= i < j ==> prio[(fa + fb)[i]] < prio[x])
    requires j < |fa + fb| ==> prio[x] <= prio[(fa + fb)[j]]
    ensures |fa| == if j < |fa + fb| && prio[(fa + fb)[j]] == prio[x] then j + 1 else j
  {
    var f := fa + fb;
    assert forall i :: 0 <= i < |f| ==> if i < |fa| then f[i] in fa else f[i] in fb;
    assert j + 1 < |f| ==> prio[f[j]] < prio[f[j + 1]];
    assert |fa| < |f| ==> prio[x] < prio[f[|fa|]];
  }

  /** x's priority is already present iff it is the last one in front of x. */
  lemma {:induction false} PresentLast(prio: Prios, x: Ptr, a: seq<Ptr>, b: seq<Ptr>)
    requires x in prio && HasPrio(prio, a) && Ascending(prio, a) && HasPrio(prio, b) && Splits(prio, x, a, b)
    ensures LastPrio(prio, Start, a) == After(prio[x]) <==> exists z :: z in Firsts(prio, a) && z in prio && prio[z] == prio[x]
  {
    FirstsMembers(prio, Start, a);
    if LastPrio(prio, Start, a) == After(prio[x]) {
      var z := FirstsCover(prio, Start, a, a[|a| - 1]);
    }
    if z :| z in Firsts(prio, a) && z in prio && prio[z] == prio[x] {
      assert z in a;
      var i :| 0 <= i < |a| && a[i] == z;
      assert a[|a| - 1] in a && InOrder(prio, a, i, |a| - 1);
    }
  }

  // ----- the list in memory -----

  ghost predicate NodesOk(head: Ptr, nodeL: Links, prio: Prios, nodes: seq<Ptr>) {
    HasPrio(prio, nodes) && Ascending(prio, nodes) && head !in nodes && Ring(nodeL, [head] + nodes)
  }

  ghost predicate PriosOk(head: Ptr, prioL: Links, prio: Prios, nodes: seq<Ptr>) {
    && HasPrio(prio, nodes) && Ring(prioL, [head] + Firsts(prio, nodes))
    && forall x :: x in nodes && x !in Firsts(prio, nodes) ==> x in prioL && prioL[x] == Link(x, x)
  }

  /** An entry on no list, as plist_node_init leaves it. */
  ghost predicate Single(prioL: Links, nodeL: Links, x: Ptr) {
    x in prioL && x in nodeL && prioL[x] == Link(x, x) && nodeL[x] == Link(x, x)
  }

  /** x at its place: behind all entries of at most its priority. */
  ghost predicate InsertedAt(prio: Prios, old_: seq<Ptr>, x: Ptr, k: nat, new_: seq<Ptr>) {
    && k <= |old_| && x in prio && HasPrio(prio, old_[..k]) && HasPrio(prio, old_[k..])
    && new_ == old_[..k] + [x] + old_[k..] && Splits(prio, x, old_[..k], old_[k..])
  }

  /** node_list after x was linked in front of `at`. */
  lemma {:induction false} AddShift(head: Ptr, nodes: seq<Ptr>, x: Ptr, k: nat)
    requires k <= |nodes|
    ensures ([head] + nodes)[..k + 1] + [x] + ([head] + nodes)[k + 1..] == [head] + (nodes[..k] + [x] + nodes[k..])
  {
    assert ([head] + nodes)[..k + 1] == [head] + nodes[..k] && ([head] + nodes)[k + 1..] == nodes[k..];
  }

  lemma {:induction false} AddNodes(head: Ptr, nodeL: Links, prio: Prios, nodes: seq<Ptr>, x: Ptr, k: nat, at: Ptr)
    requires NodesOk(head, nodeL, prio, nodes) && x in nodeL && x !in nodes && x != head && x in prio
    requires k <= |nodes| && HasPrio(prio, nodes[..k]) && HasPrio(prio, nodes[k..]) && Splits(prio, x, nodes[..k], nodes[k..])
    requires at == Wrap([head] + nodes, k + 1)
    ensures at in nodeL && nodeL[at].prev in nodeL
    ensures NodesOk(head, AddTail(nodeL, x, at), prio, nodes[..k] + [x] + nodes[k..])
  {
    var a, b := nodes[..k], nodes[k..];
    assert nodes == a + b;
    RingAdd(nodeL, [head] + nodes, x, k + 1);
    AddShift(head, nodes, x, k);
    AddAscending(prio, a, x, b);
  }

  /** prio_list when x's priority was present: x stays off it. */
  lemma {:induction false} AddPresent(head: Ptr, prioL: Links, prio: Prios, nodes: seq<Ptr>, x: Ptr, a: seq<Ptr>, b: seq<Ptr>)
    requires PriosOk(head, prioL, prio, nodes) && x in prioL && prioL[x] == Link(x, x) && x in prio && nodes == a + b
    requires HasPrio(prio, a) && HasPrio(prio, b) && Splits(prio, x, a, b) && LastPrio(prio, Start, a) == After(prio[x])
    ensures PriosOk(head, prioL, prio, a + [x] + b)
  {
    FirstsInsert(prio, x, a, b);
    NewMembers(a, x, b);
  }

  /** prio_list after x, the first of its priority, was linked in front of `at`. */
  lemma {:induction false} AddFirst(head: Ptr, prioL: Links, prio: Prios, nodes: seq<Ptr>, x: Ptr, a: seq<Ptr>, b: seq<Ptr>, at: Ptr)
    requires PriosOk(head, prioL, prio, nodes) && x in prioL && x !in nodes && x != head && x in prio && head !in nodes && nodes == a + b
    requires HasPrio(prio, a) && HasPrio(prio, b) && Splits(prio, x, a, b) && LastPrio(prio, Start, a) != After(prio[x])
    requires at == Wrap([head] + nodes, |a| + 1)
    ensures at in prioL && prioL[at].prev in prioL && PriosOk(head, AddTail(prioL, x, at), prio, a + [x] + b)
  {
    FirstsInsert(prio, x, a, b);
    var fa, fb := Firsts(prio, a), FirstsFrom(prio, LastPrio(prio, Start, a), b);
    AtFirst(head, a, b, fa, fb);
    RingAddParts(prioL, head, fa, fb, x);
    NewMembers(a, x, b);
    NewMembers(fa, x, fb);
  }

  lemma {:induction false} RingAddParts(l: Links, head: Ptr, fa: seq<Ptr>, fb: seq<Ptr>, x: Ptr)
    requires Ring(l, [head] + (fa + fb)) && x in l && x != head && x !in fa && x !in fb
    ensures var at := if fb == [] then head else fb[0];
            && at in l && l[at].prev in l
            && Ring(AddTail(l, x, at), [head] + (fa + [x] + fb)) && Untouched(l, AddTail(l, x, at), [head] + (fa + [x] + fb))
  {
    var r := [head] + (fa + fb);
    RingAdd(l, r, x, |fa| + 1);
    assert r[..|fa| + 1] + [x] + r[|fa| + 1..] == [head] + (fa + [x] + fb);
  }

  lemma {:induction false} NewMembers(a: seq<Ptr>, x: Ptr, b: seq<Ptr>)
    ensures forall y :: y in a + [x] + b <==> y == x || y in a + b
  {
  }

  lemma {:induction false} AtFirst(head: Ptr, a: seq<Ptr>, b: seq<Ptr>, fa: seq<Ptr>, fb: seq<Ptr>)
    requires if b == [] then fb == [] else fb != [] && fb[0] == b[0]
    ensures Wrap([head] + (a + b), |a| + 1) == Wrap([head] + (fa + fb), |fa| + 1) == if b == [] then head else b[0]
  {
  }

  lemma {:induction false} AddAscending(prio: Prios, a: seq<Ptr>, x: Ptr, b: seq<Ptr>)
    requires x in prio && HasPrio(prio, a) && HasPrio(prio, b) && Splits(prio, x, a, b) && HasPrio(prio, a + b) && Ascending(prio, a + b)
    ensures HasPrio(prio, a + [x] + b) && Ascending(prio, a + [x] + b)
  {
    var s := a + [x] + b;
    NewMembers(a, x, b);
    forall i, j ensures InOrder(prio, s, i, j) {
      if 0 <= i < j < |s| {
        var i', j' := if i < |a| then i else i - 1, if j < |a| then j else j - 1;
        if i != |a| && j != |a| {
          assert s[i] == (a + b)[i'] && s[j] == (a + b)[j'] && InOrder(prio, a + b, i', j');
        } else if i == |a| {
          assert s[j] in b;
        } else {
          assert s[i] in a;
        }
      }
    }
  }

  /** node_list after x left it. */
  lemma {:induction false} DelNodes(head: Ptr, nodeL: Links, prio: Prios, a: seq<Ptr>, x: Ptr, b: seq<Ptr>)
    requires NodesOk(head, nodeL, prio, a + [x] + b)
    ensures x in nodeL && nodeL[x].prev in nodeL && nodeL[x].next in nodeL && nodeL[x].next == if b == [] then head else b[0]
    ensures NodesOk(head, DelInit(nodeL, x), prio, a + b) && DelInit(nodeL, x)[x] == Link(x, x)
  {
    assert [head] + (a + [x] + b) == ([head] + a) + [x] + b && ([head] + a) + b == [head] + (a + b);
    DelPart(nodeL, [head] + a, x, b);
    DelInitPart(nodeL, [head] + a, x, b);
    NewMembers(a, x, b);
    DelAscending(prio, a, x, b);
  }

  lemma {:induction false} DelAscending(prio: Prios, a: seq<Ptr>, x: Ptr, b: seq<Ptr>)
    requires HasPrio(prio, a + [x] + b) && Ascending(prio, a + [x] + b)
    ensures HasPrio(prio, a + b) && Ascending(prio, a + b)
  {
    var s := a + [x] + b;
    NewMembers(a, x, b);
    forall i, j ensures InOrder(prio, a + b, i, j) {
      if 0 <= i < j < |a + b| {
        var i', j' := if i < |a| then i else i + 1, if j < |a| then j else j + 1;
        assert (a + b)[i] == s[i'] && (a + b)[j] == s[j'] && InOrder(prio, s, i', j');
      }
    }
  }

  /** Is `next` linked so that it may move in front of x, and x be taken out then? */
  ghost predicate MayUnhead(l: Links, x: Ptr, next: Ptr) {
    && x in l && next in l && l[next].prev in l && l[next].next in l && DelEntry(l, next)[x].prev in l
    && var m := MoveTail(l, next, x); m[x].prev in m && m[x].next in m
  }

  /** The prio_list half of plist_del for an entry x that heads its priority, `next` being its successor in node_list. */
  ghost function Unhead(l: Links, x: Ptr, next: Ptr): Links
    requires MayUnhead(l, x, next)
  {
    DelInit(MoveTail(l, next, x), x)
  }

  /** prio_list is now [head] + f, x is on no list, and all links outside `touched` are as before. */
  ghost predicate Unheaded(l: Links, head: Ptr, x: Ptr, next: Ptr, f: seq<Ptr>, touched: seq<Ptr>) {
    && MayUnhead(l, x, next)
    && Ring(Unhead(l, x, next), [head] + f) && Unhead(l, x, next)[x] == Link(x, x) && Untouched(l, Unhead(l, x, next), touched)
  }

  /** x's successor has the same priority and takes its place. */
  lemma {:induction false} UnheadSame(l: Links, head: Ptr, fa: seq<Ptr>, x: Ptr, fb: seq<Ptr>, y: Ptr)
    requires Ring(l, ([head] + fa) + [x] + fb) && y in l && l[y] == Link(y, y) && y !in ([head] + fa) + [x] + fb
    ensures Unheaded(l, head, x, y, fa + [y] + fb, ([head] + fa) + [y] + [x] + fb)
  {
    var p := [head] + fa;
    assert DelEntry(l, y) == l;
    assert p + [x] + fb == p + ([x] + fb) && p + [y] + ([x] + fb) == (p + [y]) + [x] + fb;
    AddPart(l, p, y, [x] + fb);
    DelInitPart(MoveTail(l, y, x), p + [y], x, fb);
    assert (p + [y]) + fb == [head] + (fa + [y] + fb);
  }

  /** x's successor heads the next priority: it moves in front of x, and x goes. */
  lemma {:induction false} UnheadNext(l: Links, head: Ptr, fa: seq<Ptr>, x: Ptr, y: Ptr, g: seq<Ptr>)
    requires Ring(l, ([head] + fa) + [x] + ([y] + g))
    ensures Unheaded(l, head, x, y, fa + ([y] + g), ([head] + fa) + [x] + ([y] + g))
  {
    var p := [head] + fa;
    SwappedParts(p, x, y, g);
    DelPart(l, p + [x], y, g);
    AddPart(DelEntry(l, y), p, y, [x] + g);
    DelInitPart(MoveTail(l, y, x), p + [y], x, g);
    assert (p + [y]) + g == [head] + (fa + ([y] + g));
  }

  lemma {:induction false} SwappedParts(p: seq<Ptr>, x: Ptr, y: Ptr, g: seq<Ptr>)
    ensures p + [x] + ([y] + g) == (p + [x]) + [y] + g && (p + [x]) + g == p + ([x] + g)
    ensures p + [y] + ([x] + g) == (p + [y]) + [x] + g
  {
  }

  /** The list head taken out of the ring it heads. */
  lemma {:induction false} HeadOut(l: Links, head: Ptr, fa: seq<Ptr>, x: Ptr)
    requires Ring(l, ([head] + fa) + [x])
    ensures head in l && l[head].prev in l && l[head].next in l && Ring(DelEntry(l, head), fa + [x])
    ensures head !in fa + [x] && Untouched(l, DelEntry(l, head), ([head] + fa) + [x])
  {
    assert ([head] + fa) + [x] == [head] + (fa + [x]) && (fa + [x]) + [head] + [] == (fa + [x]) + [head];
    SwapParts(l, [head], fa + [x]);
    DelPart(l, fa + [x], head, []);
    assert (fa + [x]) + [] == fa + [x];
  }

  /** x is the only entry. */
  lemma {:induction false} UnheadOnly(l: Links, head: Ptr, x: Ptr)
    requires Ring(l, [head] + [x])
    ensures Unheaded(l, head, x, head, [], [head] + [x])
  {
    assert ([head] + []) + [x] == [head] + [x] && [] + [x] == [x] == [x] + [] && [x] + [head] + [] == [x] + [head];
    HeadOut(l, head, [], x);
    AddPart(DelEntry(l, head), [x], head, []);
    SwapParts(AddTail(DelEntry(l, head), head, x), [x], [head]);
    assert [head] + [x] + [] == [head] + [x];
    DelInitPart(MoveTail(l, head, x), [head], x, []);
    assert [head] + [] == [head];
  }

  /** x is the last entry: its "successor" is the list head itself, which moves in front of x. */
  lemma {:induction false} UnheadLast(l: Links, head: Ptr, fa: seq<Ptr>, x: Ptr)
    requires Ring(l, ([head] + fa) + [x])
    ensures Unheaded(l, head, x, head, fa, ([head] + fa) + [x])
  {
    if fa == [] {
      assert ([head] + fa) + [x] == [head] + [x];
      UnheadOnly(l, head, x);
    } else {
      HeadOut(l, head, fa, x);
      AddPart(DelEntry(l, head), fa, head, [x]);
      assert fa + [head] + [x] == (fa + [head]) + [x] + [];
      DelInitPart(MoveTail(l, head, x), fa + [head], x, []);
      assert (fa + [head]) + [] == fa + [head];
      SwapParts(DelInit(MoveTail(l, head, x), x), fa, [head]);
    }
  }

  /** prio_list after x left: untouched if x did not head its priority. */
  lemma {:induction false} DelUnheaded(head: Ptr, prioL: Links, prio: Prios, a: seq<Ptr>, x: Ptr, b: seq<Ptr>)
    requires PriosOk(head, prioL, prio, a + [x] + b) && Ascending(prio, a + [x] + b) && Once(a, x, b) && head !in a + [x] + b
    ensures x in prioL && (IsEmpty(prioL, x) <==> x !in Firsts(prio, a + [x] + b))
    ensures IsEmpty(prioL, x) ==> prioL[x] == Link(x, x) && HasPrio(prio, a + b) && PriosOk(head, prioL, prio, a + b)
  {
    FirstsRemove(prio, a, x, b);
    NewMembers(a, x, b);
    var f := Firsts(prio, a + [x] + b);
    var fa, fb := Firsts(prio, a), FirstsFrom(prio, After(prio[x]), b);
    if x in f {
      var r := [head] + f;
      var i :| 0 <= i < |f| && f[i] == x;
      assert r[i + 1] == x;
      RingNotEmpty(prioL, r, i + 1);
    } else {
      assert LastPrio(prio, Start, a) != After(prio[x]) ==> x in fa + [x] + fb;
    }
  }

  /** Neither x nor the entry behind it occurs a second time. */
  ghost predicate Once(a: seq<Ptr>, x: Ptr, b: seq<Ptr>) {
    x !in a && x !in b && (b != [] ==> b[0] !in a && b[0] !in b[1..])
  }

  lemma {:induction false} NotTwice(a: seq<Ptr>, x: Ptr, b: seq<Ptr>)
    requires NoDup(a + [x] + b)
    ensures Once(a, x, b)
  {
    NoDupMiddle(a, x, b);
    assert b != [] ==> b[0] in b;
  }

  lemma {:induction false} RingNotEmpty(l: Links, r: seq<Ptr>, i: nat)
    requires Ring(l, r) && i < |r| && |r| > 1
    ensures r[i] in l && !IsEmpty(l, r[i])
  {
    NoDupAt(r);
    assert Edge(l, r, i);
  }

  lemma {:induction false} HandedFirsts(head: Ptr, prioL: Links, prio: Prios, a: seq<Ptr>, x: Ptr, b: seq<Ptr>)
    requires PriosOk(head, prioL, prio, a + [x] + b) && Ascending(prio, a + [x] + b) && Once(a, x, b) && head !in a + [x] + b
    requires x in Firsts(prio, a + [x] + b)
    ensures HasPrio(prio, a + b) && Handed(prioL, head, x, if b == [] then head else b[0], Firsts(prio, a + b), a + b)
  {
    FirstsRemove(prio, a, x, b);
    var fa, fb := Firsts(prio, a), FirstsFrom(prio, After(prio[x]), b);
    assert [head] + (fa + [x] + fb) == ([head] + fa) + [x] + fb;
    HeadedRest(head, prioL, prio, a, x, b, fa, fb);
    assert LastPrio(prio, Start, a) != After(prio[x]);
    if b == [] {
      HandLast(head, prioL, fa, x, fb, a + b);
    } else if prio[b[0]] == prio[x] {
      HandOn(head, prioL, prio, a, x, b, fa, fb);
    } else {
      HandNext(head, prioL, fa, x, fb, a + b);
    }
  }

  /** ... and otherwise handed on to the next entry. */
  lemma {:induction false} DelHeaded(head: Ptr, prioL: Links, prio: Prios, a: seq<Ptr>, x: Ptr, b: seq<Ptr>)
    requires PriosOk(head, prioL, prio, a + [x] + b) && Ascending(prio, a + [x] + b) && Once(a, x, b) && head !in a + [x] + b
    requires x in Firsts(prio, a + [x] + b)
    ensures var next := if b == [] then head else b[0];
            && HasPrio(prio, a + b) && MayUnhead(prioL, x, next)
            && PriosOk(head, Unhead(prioL, x, next), prio, a + b) && Unhead(prioL, x, next)[x] == Link(x, x)
  {
    HandedFirsts(head, prioL, prio, a, x, b);
  }

  lemma {:induction false} HeadedRest(head: Ptr, prioL: Links, prio: Prios, a: seq<Ptr>, x: Ptr, b: seq<Ptr>, fa: seq<Ptr>, fb: seq<Ptr>)
    requires Once(a, x, b) && head !in a + [x] + b && x in fa + [x] + fb
    requires (forall y :: y in fa ==> y in a) && (forall y :: y in fb ==> y in b)
    requires forall z :: z in a + [x] + b && z !in fa + [x] + fb ==> z in prioL && prioL[z] == Link(z, z)
    ensures x !in fa + fb && x !in a + b && head !in a + b
    ensures forall z :: z in a + b && z !in fa + [x] + fb ==> z in prioL && prioL[z] == Link(z, z)
  {
    NewMembers(a, x, b);
  }

  /** x has left prio_list, which is [head] + f now; the entries of `rest` that are not on it are on no list. */
  ghost predicate Handed(l: Links, head: Ptr, x: Ptr, next: Ptr, f: seq<Ptr>, rest: seq<Ptr>) {
    && MayUnhead(l, x, next)
    && Ring(Unhead(l, x, next), [head] + f) && Unhead(l, x, next)[x] == Link(x, x)
    && forall z :: z in rest && z !in f ==> z in Unhead(l, x, next) && Unhead(l, x, next)[z] == Link(z, z)
  }

  lemma {:induction false} HandLast(head: Ptr, l: Links, fa: seq<Ptr>, x: Ptr, fb: seq<Ptr>, rest: seq<Ptr>)
    requires Ring(l, ([head] + fa) + [x] + fb) && fb == [] && head !in rest && x !in rest
    requires forall z :: z in rest && z !in fa + [x] + fb ==> z in l && l[z] == Link(z, z)
    ensures Handed(l, head, x, head, fa, rest)
  {
    assert ([head] + fa) + [x] + fb == ([head] + fa) + [x] == ([head] + fa) + [] + [x] + fb;
    UnheadLast(l, head, fa, x);
    StillSingle(head, l, Unhead(l, x, head), fa, x, fb, [], rest);
    assert fa + [] + fb == fa;
  }

  lemma {:induction false} HandNext(head: Ptr, l: Links, fa: seq<Ptr>, x: Ptr, fb: seq<Ptr>, rest: seq<Ptr>)
    requires Ring(l, ([head] + fa) + [x] + fb) && fb != [] && head !in rest && x !in rest
    requires forall z :: z in rest && z !in fa + [x] + fb ==> z in l && l[z] == Link(z, z)
    ensures Handed(l, head, x, fb[0], fa + fb, rest)
  {
    assert fb == [fb[0]] + fb[1..];
    UnheadNext(l, head, fa, x, fb[0], fb[1..]);
    assert ([head] + fa) + [] + [x] + fb == ([head] + fa) + [x] + fb;
    StillSingle(head, l, Unhead(l, x, fb[0]), fa, x, fb, [], rest);
    assert fa + [] + fb == fa + fb;
  }

  lemma {:induction false} HandOn(head: Ptr, prioL: Links, prio: Prios, a: seq<Ptr>, x: Ptr, b: seq<Ptr>, fa: seq<Ptr>, fb: seq<Ptr>)
    requires Once(a, x, b) && head !in a + b && x !in a + b && b != [] && Ring(prioL, ([head] + fa) + [x] + fb)
    requires x in prio && HasPrio(prio, b) && prio[b[0]] == prio[x] && fb == FirstsFrom(prio, After(prio[x]), b)
    requires forall y :: y in fa ==> y in a
    requires forall z :: z in a + b && z !in fa + [x] + fb ==> z in prioL && prioL[z] == Link(z, z)
    ensures Handed(prioL, head, x, b[0], fa + [b[0]] + fb, a + b)
  {
    SameNotFirst(prio, x, b);
    assert b[0] in b && b[0] in a + b && b[0] !in fa;
    UnheadSame(prioL, head, fa, x, fb, b[0]);
    StillSingle(head, prioL, Unhead(prioL, x, b[0]), fa, x, fb, [b[0]], a + b);
  }

  lemma {:induction false} SameNotFirst(prio: Prios, x: Ptr, b: seq<Ptr>)
    requires x in prio && HasPrio(prio, b) && b != [] && prio[b[0]] == prio[x] && b[0] !in b[1..]
    ensures b[0] !in FirstsFrom(prio, After(prio[x]), b)
  {
    FirstsMembers(prio, After(prio[b[0]]), b[1..]);
  }

  lemma {:induction false} StillSingle(head: Ptr, l: Links, l': Links, fa: seq<Ptr>, x: Ptr, fb: seq<Ptr>, y: seq<Ptr>, rest: seq<Ptr>)
    requires Untouched(l, l', ([head] + fa) + y + [x] + fb) && head !in rest && x !in rest
    requires forall z :: z in rest && z !in fa + [x] + fb ==> z in l && l[z] == Link(z, z)
    ensures forall z :: z in rest && z !in fa + y + fb ==> z in l' && l'[z] == Link(z, z)
  {
    forall z | z in rest && z !in fa + y + fb
      ensures z in l' && l'[z] == Link(z, z)
    {
      assert z !in fa && z !in y && z !in fb;
      assert z !in ([head] + fa) + y + [x] + fb;
    }
  }

  class Plist {
    const head: Ptr
    var prioL: Links
    var nodeL: Links
    var prio: Prios
    ghost var nodes: seq<Ptr>

    ghost predicate Valid()
      reads this
    {
      NodesOk(head, nodeL, prio, nodes) && PriosOk(head, prioL, prio, nodes)
    }

    /** plist_head_init */
    constructor (h: Ptr)
      ensures Valid() && head == h && nodes == []
    {
      head := h;
      prioL, nodeL, prio, nodes := map[h := Link(h, h)], map[h := Link(h, h)], map[], [];
      new;
      assert [head] + nodes == [head] && [head] + Firsts(prio, nodes) == [head];
      assert [head][1..] == [] && Edge(nodeL, [head], 0) && Edge(prioL, [head], 0);
      assert Ring(nodeL, [head]) && Ring(prioL, [head]);
    }

    /** plist_node_init */
    method NodeInit(x: Ptr, p: int)
      requires Valid() && x != head && x !in nodes
      modifies this`prioL, this`nodeL, this`prio
      ensures Valid() && Single(prioL, nodeL, x) && prio == old(prio)[x := p]
    {
      FirstsMembers(prio, Start, nodes);
      PrioElsewhere(prio, prio[x := p], Start, nodes);
      AscendingElsewhere(prio, prio[x := p], nodes);
      prio := prio[x := p];
      prioL, nodeL := Init(prioL, x), Init(nodeL, x);
      RingFrame(old(nodeL), nodeL, [head] + nodes);
      RingFrame(old(prioL), prioL, [head] + Firsts(prio, nodes));
    }

    /** The walk of plist_add over prio_list, up to the first priority that is not below x's. */
    method SearchPrio(x: Ptr) returns (iter: Ptr, present: bool, ghost j: nat)
      requires Valid() && x in prio && HasPrio(prio, Firsts(prio, nodes)) && head !in Firsts(prio, nodes)
      ensures var f := Firsts(prio, nodes);
              && j <= |f| && (forall i :: 0 <= i < j ==> prio[f[i]] < prio[x]) && (j < |f| ==> prio[x] <= prio[f[j]])
              && (present <==> j < |f| && prio[f[j]] == prio[x])
              && iter == Wrap([head] + f, if present then j + 2 else j + 1)
    {
      ghost var f := Firsts(prio, nodes);
      ghost var r := [head] + f;
      assert Edge(prioL, r, 0);
      iter, present, j := prioL[head].next, false, 0;
      while iter != head
        invariant j <= |f| && iter == Wrap(r, j + 1) && !present && (forall i :: 0 <= i < j ==> prio[f[i]] < prio[x])
        decreases |f| - j
      {
        assert iter == f[j] && iter in f;
        assert Edge(prioL, r, j + 1);
        if prio[x] < prio[iter] {
          break;
        } else if prio[x] == prio[iter] {
          present := true;
          iter := prioL[iter].next;
          break;
        }
        iter := prioL[iter].next;
        j := j + 1;
      }
    }

    /** The search of plist_add: the entry in front of which x belongs, and whether its priority is already there. */
    method FindPlace(x: Ptr) returns (iter: Ptr, present: bool, ghost k: nat)
      requires Valid() && x in prio && x !in nodes
      ensures k <= |nodes| && HasPrio(prio, nodes[..k]) && HasPrio(prio, nodes[k..]) && Splits(prio, x, nodes[..k], nodes[k..])
      ensures iter == Wrap([head] + nodes, k + 1)
      ensures present <==> LastPrio(prio, Start, nodes[..k]) == After(prio[x])
    {
      FirstsMembers(prio, Start, nodes);
      ghost var j;
      iter, present, j := SearchPrio(x);
      k := SplitAt(prio, x, nodes);
      PlaceFound(head, prio, nodes, x, k, j);
    }

    /** plist_add */
    method Add(x: Ptr)
      requires Valid() && Single(prioL, nodeL, x) && x in prio && x !in nodes && x != head
      modifies this`prioL, this`nodeL, this`nodes
      ensures Valid() && exists k :: InsertedAt(prio, old(nodes), x, k, nodes)
    {
      var iter, present;
      ghost var k;
      iter, present, k := FindPlace(x);
      ghost var a, b := nodes[..k], nodes[k..];
      assert nodes == a + b;
      AddNodes(head, nodeL, prio, nodes, x, k, iter);
      if present {
        AddPresent(head, prioL, prio, nodes, x, a, b);
      } else {
        AddFirst(head, prioL, prio, nodes, x, a, b, iter);
        prioL := AddTail(prioL, x, iter);
      }
      nodeL := AddTail(nodeL, x, iter);
      nodes := a + [x] + b;
      assert InsertedAt(prio, old(nodes), x, k, nodes);
    }

    /** plist_del */
    method Del(x: Ptr, ghost k: nat)
      requires Valid() && k < |nodes| && nodes[k] == x
      modifies this`prioL, this`nodeL, this`nodes
      ensures Valid() && Single(prioL, nodeL, x) && nodes == old(nodes)[..k] + old(nodes)[k + 1..]
    {
      ghost var a, b := nodes[..k], nodes[k + 1..];
      assert nodes == a + [x] + b;
      RingNoDup(nodeL, head, nodes);
      NotTwice(a, x, b);
      DelNodes(head, nodeL, prio, a, x, b);
      DelUnheaded(head, prioL, prio, a, x, b);
      if !IsEmpty(prioL, x) {
        DelHeaded(head, prioL, prio, a, x, b);
        var next := nodeL[x].next;
        prioL := MoveTail(prioL, next, x);
        prioL := DelInit(prioL, x);
      }
      nodeL := DelInit(nodeL, x);
      nodes := a + b;
    }
  }

  lemma {:induction false} RingNoDup(l: Links, head: Ptr, s: seq<Ptr>)
    requires Ring(l, [head] + s)
    ensures NoDup(s)
  {
    assert ([head] + s)[1..] == s;
  }

  lemma {:induction false} PrioElsewhere(prio: Prios, prio': Prios, prev: Prev, s: seq<Ptr>)
    requires HasPrio(prio, s) && HasPrio(prio', s) && forall y :: y in s ==> prio'[y] == prio[y]
    ensures FirstsFrom(prio', prev, s) == FirstsFrom(prio, prev, s)
    decreases |s|
  {
    if s != [] {
      PrioElsewhere(prio, prio', After(prio[s[0]]), s[1..]);
    }
  }

  lemma {:induction false} AscendingElsewhere(prio: Prios, prio': Prios, s: seq<Ptr>)
    requires HasPrio(prio, s) && HasPrio(prio', s) && Ascending(prio, s) && forall y :: y in s ==> prio'[y] == prio[y]
    ensures Ascending(prio', s)
  {
    forall i, j ensures InOrder(prio', s, i, j) {
      assert InOrder(prio, s, i, j);
    }
  }

  /** The walk passes the first entries of the priorities in front of x's place, and no others. */
  lemma {:induction false} PlaceCount(prio: Prios, nodes: seq<Ptr>, x: Ptr, a: seq<Ptr>, b: seq<Ptr>, j: nat)
    requires HasPrio(prio, nodes) && Ascending(prio, nodes) && x in prio && nodes == a + b
    requires HasPrio(prio, a) && HasPrio(prio, b) && Splits(prio, x, a, b) && HasPrio(prio, Firsts(prio, nodes))
    requires var f := Firsts(prio, nodes);
             && j <= |f| && (forall i :: 0 <= i < j ==> prio[f[i]] < prio[x]) && (j < |f| ==> prio[x] <= prio[f[j]])
    ensures var f := Firsts(prio, nodes);
            |Firsts(prio, a)| == if j < |f| && prio[f[j]] == prio[x] then j + 1 else j
  {
    FirstsInsert(prio, x, a, b);
    FirstsStrict(prio, Start, nodes);
    SearchStops(prio, x, Firsts(prio, a), FirstsFrom(prio, LastPrio(prio, Start, a), b), j);
  }

  lemma {:induction false} PlaceFound(head: Ptr, prio: Prios, nodes: seq<Ptr>, x: Ptr, k: nat, j: nat)
    requires HasPrio(prio, nodes) && Ascending(prio, nodes) && x in prio && k <= |nodes|
    requires HasPrio(prio, nodes[..k]) && HasPrio(prio, nodes[k..]) && Splits(prio, x, nodes[..k], nodes[k..])
    requires HasPrio(prio, Firsts(prio, nodes))
    requires var f := Firsts(prio, nodes);
             && j <= |f| && (forall i :: 0 <= i < j ==> prio[f[i]] < prio[x]) && (j < |f| ==> prio[x] <= prio[f[j]])
    ensures var f := Firsts(prio, nodes);
            var present := j < |f| && prio[f[j]] == prio[x];
            && (present <==> LastPrio(prio, Start, nodes[..k]) == After(prio[x]))
            && Wrap([head] + nodes, k + 1) == Wrap([head] + f, if present then j + 2 else j + 1)
  {
    var a, b := nodes[..k], nodes[k..];
    assert nodes == a + b;
    PlaceCount(prio, nodes, x, a, b, j);
    FirstsInsert(prio, x, a, b);
    var f, fa, fb := Firsts(prio, nodes), Firsts(prio, a), FirstsFrom(prio, LastPrio(prio, Start, a), b);
    AtFirst(head, a, b, fa, fb);
    PresentAt(prio, x, a, b, f, fa, fb, j);
  }

  lemma {:induction false} PresentAt(prio: Prios, x: Ptr, a: seq<Ptr>, b: seq<Ptr>, f: seq<Ptr>, fa: seq<Ptr>, fb: seq<Ptr>, j: nat)
    requires x in prio && HasPrio(prio, a) && HasPrio(prio, b) && Splits(prio, x, a, b) && HasPrio(prio, a + b) && Ascending(prio, a + b)
    requires f == fa + fb && fa == Firsts(prio, a) && HasPrio(prio, f)
    requires j <= |f| && (forall i :: 0 <= i < j ==> prio[f[i]] < prio[x])
    requires |fa| == if j < |f| && prio[f[j]] == prio[x] then j + 1 else j
    ensures j < |f| && prio[f[j]] == prio[x] <==> LastPrio(prio, Start, a) == After(prio[x])
  {
    forall i, j ensures InOrder(prio, a, i, j) {
      assert InOrder(prio, a + b, i, j);
    }
    PresentLast(prio, x, a, b);
    if j < |f| && prio[f[j]] == prio[x] {
      assert f[j] == fa[j] && fa[j] in fa;
    } else {
      assert forall z :: z in fa ==> z in prio && prio[z] < prio[x] by { assert forall i :: 0 <= i < |fa| ==> fa[i] == f[i]; }
    }
  }
}
