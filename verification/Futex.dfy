/** futex_wake, futex_wake_op and futex_requeue of kernel/futex.c, run under their bucket locks: which waiters
    leave which chain, in which order. All waiters queue with one priority, so a chain is first in, first out. */
module Futex {
  import opened Seqs

  type Ptr = nat

  const EINVAL: int := 22
  const EAGAIN: int := 11

  /** union futex_key */
  datatype Key = Key(word: nat, ptr: nat, offset: nat)

  /** struct futex_q; lockPtr names the bucket whose lock is stored, None for NULL. */
  datatype FutexQ = FutexQ(key: Key, bits: set<nat>, lockPtr: Option<nat>)

  type Table = map<Ptr, FutexQ>

  function Min(a: int, b: int): int {
    if a < b then a else b
  }

  function Max(a: int, b: int): int {
    if a < b then b else a
  }

  /** match_futex, and for futex_wake the test of the bitsets. */
  predicate Hit(q: Table, x: Ptr, key: Key, bits: Option<set<nat>>) {
    x in q && q[x].key == key && (bits.Some? ==> q[x].bits * bits.value != {})
  }

  /** The waiters of a chain that match, in order. */
  function Hits(q: Table, s: seq<Ptr>, key: Key, bits: Option<set<nat>>): seq<Ptr> {
    if s == [] then []
    else (if Hit(q, s[0], key, bits) then [s[0]] else []) + Hits(q, s[1..], key, bits)
  }

  /** The waiters of a chain that do not match, in order. */
  function Misses(q: Table, s: seq<Ptr>, key: Key, bits: Option<set<nat>>): seq<Ptr> {
    if s == [] then []
    else (if Hit(q, s[0], key, bits) then [] else [s[0]]) + Misses(q, s[1..], key, bits)
  }

  /** The chain without its first n matching waiters. */
  function Rest(q: Table, s: seq<Ptr>, key: Key, bits: Option<set<nat>>, n: nat): seq<Ptr> {
    if s == [] then []
    else if Hit(q, s[0], key, bits) && n > 0 then Rest(q, s[1..], key, bits, n - 1)
    else [s[0]] + Rest(q, s[1..], key, bits, n)
  }

  lemma {:induction false} HitsConcat(q: Table, a: seq<Ptr>, b: seq<Ptr>, key: Key, bits: Option<set<nat>>)
    ensures Hits(q, a + b, key, bits) == Hits(q, a, key, bits) + Hits(q, b, key, bits)
    decreases |a|
  {
    if a == [] {
      assert a + b == b;
    } else {
      assert (a + b)[1..] == a[1..] + b && (a + b)[0] == a[0];
      HitsConcat(q, a[1..], b, key, bits);
    }
  }

  /** What is left of the matches: the later ones, in their order. */
  lemma {:induction false} RestHits(q: Table, s: seq<Ptr>, key: Key, bits: Option<set<nat>>, n: nat)
    ensures Hits(q, Rest(q, s, key, bits, n), key, bits) == Hits(q, s, key, bits)[Min(n, |Hits(q, s, key, bits)|)..]
    decreases |s|
  {
    if s != [] {
      if Hit(q, s[0], key, bits) && n > 0 {
        RestHits(q, s[1..], key, bits, n - 1);
      } else {
        RestHits(q, s[1..], key, bits, n);
        HitsConcat(q, [s[0]], Rest(q, s[1..], key, bits, n), key, bits);
      }
    }
  }

  /** The waiters that do not match keep their places among each other. */
  lemma {:induction false} RestOthers(q: Table, s: seq<Ptr>, key: Key, bits: Option<set<nat>>, n: nat)
    ensures Misses(q, Rest(q, s, key, bits, n), key, bits) == Misses(q, s, key, bits)
    decreases |s|
  {
    if s != [] {
      if Hit(q, s[0], key, bits) && n > 0 {
        RestOthers(q, s[1..], key, bits, n - 1);
      } else {
        RestOthers(q, s[1..], key, bits, n);
        assert ([s[0]] + Rest(q, s[1..], key, bits, n))[1..] == Rest(q, s[1..], key, bits, n);
      }
    }
  }

  lemma {:induction false} RestMisses(q: Table, s: seq<Ptr>, key: Key, bits: Option<set<nat>>, n: nat)
    ensures forall x :: x in s && !Hit(q, x, key, bits) ==> x in Rest(q, s, key, bits, n)
    decreases |s|
  {
    if s != [] {
      RestMisses(q, s[1..], key, bits, if Hit(q, s[0], key, bits) && n > 0 then n - 1 else n);
      assert forall x :: x in s <==> x == s[0] || x in s[1..];
    }
  }

  lemma {:induction false} RestZero(q: Table, s: seq<Ptr>, key: Key, bits: Option<set<nat>>)
    ensures Rest(q, s, key, bits, 0) == s
    decreases |s|
  {
    if s != [] {
      RestZero(q, s[1..], key, bits);
    }
  }

  lemma {:induction false} HitsIn(q: Table, s: seq<Ptr>, key: Key, bits: Option<set<nat>>)
    ensures forall x :: x in Hits(q, s, key, bits) <==> x in s && Hit(q, x, key, bits)
    ensures NoDup(s) ==> NoDup(Hits(q, s, key, bits))
    decreases |s|
  {
    if s != [] {
      var t := Hits(q, s[1..], key, bits);
      HitsIn(q, s[1..], key, bits);
      assert ([s[0]] + t)[1..] == t && [] + t == t;
      assert forall x :: x in s <==> x == s[0] || x in s[1..];
    }
  }

  /** A waiter taken out is not left on the chain. */
  lemma {:induction false} RestApart(q: Table, s: seq<Ptr>, key: Key, bits: Option<set<nat>>, n: nat)
    requires NoDup(s)
    ensures NoDup(Rest(q, s, key, bits, n))
    ensures forall x :: x in Rest(q, s, key, bits, n) ==> x in s
    ensures forall x :: x in Hits(q, s, key, bits)[..Min(n, |Hits(q, s, key, bits)|)] ==> x in s && x !in Rest(q, s, key, bits, n)
    decreases |s|
  {
    if s != [] {
      var h, t := Hits(q, s, key, bits), Hits(q, s[1..], key, bits);
      if Hit(q, s[0], key, bits) && n > 0 {
        RestApart(q, s[1..], key, bits, n - 1);
        assert h[..Min(n, |h|)] == [s[0]] + t[..Min(n - 1, |t|)];
      } else {
        RestApart(q, s[1..], key, bits, n);
        var r := Rest(q, s[1..], key, bits, n);
        assert ([s[0]] + r)[1..] == r;
        assert h[..Min(n, |h|)] == t[..Min(n, |t|)];
      }
    }
  }

  ghost predicate AllIn(s: seq<Ptr>, known: set<Ptr>) {
    forall x :: x in s ==> x in known
  }

  /** Part way through a scan that takes the first `out` matches off the chain: i waiters of s are passed over,
      `taken` are the matches met. */
  ghost predicate Scanned(q0: Table, s0: seq<Ptr>, key: Key, bits: Option<set<nat>>, out: nat, s: seq<Ptr>, i: nat, taken: seq<Ptr>) {
    && i <= |s|
    && s[..i] + Rest(q0, s[i..], key, bits, Max(out - |taken|, 0)) == Rest(q0, s0, key, bits, out)
    && taken + Hits(q0, s[i..], key, bits) == Hits(q0, s0, key, bits)
  }

  lemma {:induction false} ScanHit(q0: Table, s0: seq<Ptr>, key: Key, bits: Option<set<nat>>, out: nat, s: seq<Ptr>, i: nat, taken: seq<Ptr>)
    requires Scanned(q0, s0, key, bits, out, s, i, taken) && i < |s| && Hit(q0, s[i], key, bits)
    ensures |taken| < out ==> Scanned(q0, s0, key, bits, out, s[..i] + s[i + 1..], i, taken + [s[i]])
    ensures |taken| >= out ==> Scanned(q0, s0, key, bits, out, s, i + 1, taken + [s[i]])
    ensures AllIn(s, q0.Keys) ==> AllIn(s[..i] + s[i + 1..], q0.Keys)
  {
    assert s[i..][1..] == s[i + 1..];
    if |taken| < out {
      var t := s[..i] + s[i + 1..];
      assert t[..i] == s[..i] && t[i..] == s[i + 1..];
    }
  }

  lemma {:induction false} ScanMiss(q0: Table, s0: seq<Ptr>, key: Key, bits: Option<set<nat>>, out: nat, s: seq<Ptr>, i: nat, taken: seq<Ptr>)
    requires Scanned(q0, s0, key, bits, out, s, i, taken) && i < |s| && !Hit(q0, s[i], key, bits)
    ensures Scanned(q0, s0, key, bits, out, s, i + 1, taken)
  {
    assert s[i..][1..] == s[i + 1..];
  }

  /** The waiter the scan stands at has not been taken. */
  lemma {:induction false} ScanFresh(q0: Table, s0: seq<Ptr>, key: Key, bits: Option<set<nat>>, out: nat, s: seq<Ptr>, i: nat, taken: seq<Ptr>)
    requires Scanned(q0, s0, key, bits, out, s, i, taken) && i < |s| && NoDup(s0)
    ensures s[i] !in taken
  {
    HitsIn(q0, s0, key, bits);
    HitsIn(q0, s[i..], key, bits);
    NoDupAppend(taken, Hits(q0, s[i..], key, bits));
    assert s[i..][0] == s[i];
    assert forall x :: x in taken ==> x in taken + Hits(q0, s[i..], key, bits);
  }

  lemma {:induction false} ScanDone(q0: Table, s0: seq<Ptr>, key: Key, bits: Option<set<nat>>, out: nat, n: nat, s: seq<Ptr>, i: nat, taken: seq<Ptr>)
    requires Scanned(q0, s0, key, bits, out, s, i, taken) && |taken| <= n && out <= n
    requires i == |s| || |taken| == n
    ensures s == Rest(q0, s0, key, bits, out)
    ensures taken == Hits(q0, s0, key, bits)[..Min(n, |Hits(q0, s0, key, bits)|)]
  {
    RestZero(q0, s[i..], key, bits);
    assert s == s[..i] + s[i..];
  }

  /** requeue_futex on one entry: a new key, and the lock of the new bucket when the bucket changes. */
  function Rekeyed(e: FutexQ, key2: Key, lock: Option<nat>): FutexQ {
    e.(key := key2, lockPtr := if lock.Some? then lock else e.lockPtr)
  }

  /** The entries after waking `woken` and requeueing `moved`. */
  function After(q: Table, woken: seq<Ptr>, moved: seq<Ptr>, key2: Key, lock: Option<nat>): Table {
    map x | x in q :: if x in moved then Rekeyed(q[x], key2, lock) else if x in woken then q[x].(lockPtr := None) else q[x]
  }

  function Woken(q: Table, woken: seq<Ptr>): Table {
    map x | x in q :: if x in woken then q[x].(lockPtr := None) else q[x]
  }

  lemma {:induction false} WokenAgain(q: Table, woken: seq<Ptr>, x: Ptr)
    requires x in q && x !in woken
    ensures var w := Woken(q, woken); w[x := w[x].(lockPtr := None)] == Woken(q, woken + [x])
  {
    var w := Woken(q, woken);
    assert forall y :: y in q ==> w[x := w[x].(lockPtr := None)][y] == Woken(q, woken + [x])[y];
  }

  lemma {:induction false} AfterAgain(q: Table, woken: seq<Ptr>, moved: seq<Ptr>, key2: Key, lock: Option<nat>, x: Ptr)
    requires x in q && x !in woken && x !in moved
    ensures var a := After(q, woken, moved, key2, lock);
            && a[x] == q[x]
            && a[x := a[x].(lockPtr := None)] == After(q, woken + [x], moved, key2, lock)
            && a[x := Rekeyed(a[x], key2, lock)] == After(q, woken, moved + [x], key2, lock)
  {
    var a := After(q, woken, moved, key2, lock);
    assert forall y :: y in q ==> a[x := a[x].(lockPtr := None)][y] == After(q, woken + [x], moved, key2, lock)[y];
    assert forall y :: y in q ==> a[x := Rekeyed(a[x], key2, lock)][y] == After(q, woken, moved + [x], key2, lock)[y];
  }

  /** Every waiter on bucket b's chain is there once, its lock pointer names b and its key hashes to b. */
  ghost predicate OnChain(s: seq<Ptr>, q: Table, b: nat, hash: Key -> nat) {
    NoDup(s) && forall x :: x in s ==> x in q && q[x].lockPtr == Some(b) && hash(q[x].key) == b
  }

  ghost predicate Queues(chain: map<nat, seq<Ptr>>, q: Table, hash: Key -> nat) {
    (forall k :: hash(k) in chain) && (forall b :: b in chain ==> OnChain(chain[b], q, b, hash))
  }

  /** Waking keeps every chain in order. */
  lemma {:induction false} WakeKeeps(chain: map<nat, seq<Ptr>>, q: Table, hash: Key -> nat, b: nat, key: Key, bits: Option<set<nat>>, n: nat)
    requires Queues(chain, q, hash) && b in chain
    ensures var h := Hits(q, chain[b], key, bits);
            Queues(chain[b := Rest(q, chain[b], key, bits, n)], Woken(q, h[..Min(n, |h|)]), hash)
  {
    var h := Hits(q, chain[b], key, bits);
    var w := h[..Min(n, |h|)];
    RestApart(q, chain[b], key, bits, n);
    var c := chain[b := Rest(q, chain[b], key, bits, n)];
    forall b' | b' in c ensures OnChain(c[b'], Woken(q, w), b', hash) {
      assert OnChain(chain[b'], q, b', hash) && OnChain(chain[b], q, b, hash);
    }
  }

  /** A waiter for another word, or with no bit in common, keeps its place and its entry; only a waiter for the word with a bit
      in common is woken. */
  ghost predicate Spared(c: seq<Ptr>, q: Table, c': seq<Ptr>, q': Table, key: Key, bits: set<nat>) {
    && q'.Keys == q.Keys
    && (forall x :: x in c && x in q && (q[x].key != key || q[x].bits !! bits) ==> x in c' && q'[x] == q[x])
    && (forall x :: x in q && q'[x] != q[x] ==> x in c && q[x].key == key && !(q[x].bits !! bits))
  }

  lemma {:induction false} WakeSpares(q: Table, c: seq<Ptr>, key: Key, bits: set<nat>, n: nat)
    ensures var h := Hits(q, c, key, Some(bits));
            Spared(c, q, Rest(q, c, key, Some(bits), n), Woken(q, h[..Min(n, |h|)]), key, bits)
  {
    HitsIn(q, c, key, Some(bits));
    RestMisses(q, c, key, Some(bits), n);
    forall x | x in q ensures q[x].bits * bits == {} <==> q[x].bits !! bits {
      assert q[x].bits * bits == {} ==> forall i :: i in q[x].bits ==> i !in q[x].bits * bits;
    }
  }

  /** How many matches futex_requeue handles, and how many of those it wakes, when enough are waiting. */
  function Handled(nrWake: int, nrRequeue: int): nat {
    Max(0, nrWake + nrRequeue)
  }

  function ToWake(nrWake: int, nrRequeue: int): nat {
    Min(Handled(nrWake, nrRequeue), Max(0, nrWake))
  }

  /** The chains after futex_requeue: what is handled leaves b1, and what is moved joins b2 at the end in its order;
      within one bucket only the woken waiters leave. */
  function Requeued(chain: map<nat, seq<Ptr>>, q: Table, b1: nat, b2: nat, key1: Key, handled: nat, woken: nat): map<nat, seq<Ptr>>
    requires b1 in chain && b2 in chain && woken <= handled
  {
    var s := chain[b1];
    var h := Hits(q, s, key1, None);
    if b1 == b2 then chain[b1 := Rest(q, s, key1, None, woken)]
    else chain[b1 := Rest(q, s, key1, None, handled)][b2 := chain[b2] + h[Min(woken, |h|)..Min(handled, |h|)]]
  }

  /** Waiters woken and waiters moved are different waiters. */
  lemma {:induction false} SplitHits(q: Table, s: seq<Ptr>, key: Key, handled: nat, woken: nat)
    requires NoDup(s) && woken <= handled
    ensures var h := Hits(q, s, key, None);
            var w, m := h[..Min(woken, |h|)], h[Min(woken, |h|)..Min(handled, |h|)];
            && h[..Min(handled, |h|)] == w + m && NoDup(w) && NoDup(m)
            && (forall x :: x in w ==> x in s && x !in m)
            && (forall x :: x in m ==> x in s)
  {
    var h := Hits(q, s, key, None);
    var w, m := h[..Min(woken, |h|)], h[Min(woken, |h|)..Min(handled, |h|)];
    HitsIn(q, s, key, None);
    assert h == h[..Min(handled, |h|)] + h[Min(handled, |h|)..];
    NoDupAppend(h[..Min(handled, |h|)], h[Min(handled, |h|)..]);
    assert h[..Min(handled, |h|)] == w + m;
    NoDupAppend(w, m);
  }

  /** Part way through futex_requeue's loop: n to handle and w to wake at most; t is the other chain, if there is one. */
  ghost predicate Requeueing(q0: Table, s0: seq<Ptr>, t0: seq<Ptr>, key1: Key, key2: Key, lock: Option<nat>, n: nat, w: nat,
                             q: Table, s: seq<Ptr>, i: nat, t: seq<Ptr>, woken: seq<Ptr>, moved: seq<Ptr>)
  {
    && NoDup(s0) && AllIn(s, q0.Keys) && w <= n
    && |woken| + |moved| <= n && |woken| <= w && (|woken| < w ==> moved == [])
    && Scanned(q0, s0, key1, None, if lock.None? then w else n, s, i, woken + moved)
    && q == After(q0, woken, moved, key2, lock)
    && (lock.Some? ==> t == t0 + moved)
  }

  lemma {:induction false} RequeueBegin(q: Table, s: seq<Ptr>, t: seq<Ptr>, key1: Key, key2: Key, lock: Option<nat>, n: nat, w: nat)
    requires NoDup(s) && AllIn(s, q.Keys) && w <= n
    ensures Requeueing(q, s, t, key1, key2, lock, n, w, q, s, 0, t, [], [])
  {
    var out := if lock.None? then w else n;
    assert s[0..] == s && s[..0] == [] && [] + Rest(q, s, key1, None, out) == Rest(q, s, key1, None, out);
    assert q == After(q, [], [], key2, lock) && t + [] == t;
    assert [] + Hits(q, s, key1, None) == Hits(q, s, key1, None);
  }

  lemma {:induction false} RequeueMiss(q0: Table, s0: seq<Ptr>, t0: seq<Ptr>, key1: Key, key2: Key, lock: Option<nat>, n: nat, w: nat,
                                       q: Table, s: seq<Ptr>, i: nat, t: seq<Ptr>, woken: seq<Ptr>, moved: seq<Ptr>)
    requires Requeueing(q0, s0, t0, key1, key2, lock, n, w, q, s, i, t, woken, moved) && i < |s|
    ensures s[i] in q && s[i] in q0 && Hit(q, s[i], key1, None) == Hit(q0, s[i], key1, None) && s[i] !in woken + moved
    ensures !Hit(q, s[i], key1, None) ==> Requeueing(q0, s0, t0, key1, key2, lock, n, w, q, s, i + 1, t, woken, moved)
  {
    var out := if lock.None? then w else n;
    ScanFresh(q0, s0, key1, None, out, s, i, woken + moved);
    AfterAgain(q0, woken, moved, key2, lock, s[i]);
    if !Hit(q, s[i], key1, None) {
      ScanMiss(q0, s0, key1, None, out, s, i, woken + moved);
    }
  }

  lemma {:induction false} RequeueWake(q0: Table, s0: seq<Ptr>, t0: seq<Ptr>, key1: Key, key2: Key, lock: Option<nat>, n: nat, w: nat,
                                       q: Table, s: seq<Ptr>, i: nat, t: seq<Ptr>, woken: seq<Ptr>, moved: seq<Ptr>)
    requires Requeueing(q0, s0, t0, key1, key2, lock, n, w, q, s, i, t, woken, moved) && i < |s|
    requires s[i] in q && s[i] in q0 && Hit(q0, s[i], key1, None) && s[i] !in woken + moved && |woken| < w
    ensures Requeueing(q0, s0, t0, key1, key2, lock, n, w, q[s[i] := q[s[i]].(lockPtr := None)], s[..i] + s[i + 1..], i, t, woken + [s[i]], moved)
  {
    AfterAgain(q0, woken, moved, key2, lock, s[i]);
    ScanHit(q0, s0, key1, None, if lock.None? then w else n, s, i, woken + moved);
    assert woken + moved + [s[i]] == woken + [s[i]] + moved;
  }

  lemma {:induction false} RequeueMove(q0: Table, s0: seq<Ptr>, t0: seq<Ptr>, key1: Key, key2: Key, lock: Option<nat>, n: nat, w: nat,
                                       q: Table, s: seq<Ptr>, i: nat, t: seq<Ptr>, woken: seq<Ptr>, moved: seq<Ptr>)
    requires Requeueing(q0, s0, t0, key1, key2, lock, n, w, q, s, i, t, woken, moved) && i < |s|
    requires s[i] in q && s[i] in q0 && Hit(q0, s[i], key1, None) && s[i] !in woken + moved
    requires |woken| == w && |woken| + |moved| < n
    ensures var q', m := q[s[i] := Rekeyed(q[s[i]], key2, lock)], moved + [s[i]];
            && (lock.None? ==> Requeueing(q0, s0, t0, key1, key2, lock, n, w, q', s, i + 1, t, woken, m))
            && (lock.Some? ==> Requeueing(q0, s0, t0, key1, key2, lock, n, w, q', s[..i] + s[i + 1..], i, t + [s[i]], woken, m))
  {
    AfterAgain(q0, woken, moved, key2, lock, s[i]);
    ScanHit(q0, s0, key1, None, if lock.None? then w else n, s, i, woken + moved);
    assert woken + moved + [s[i]] == woken + (moved + [s[i]]);
    assert t0 + moved + [s[i]] == t0 + (moved + [s[i]]);
  }

  lemma {:induction false} RequeueDone(q0: Table, s0: seq<Ptr>, t0: seq<Ptr>, key1: Key, key2: Key, lock: Option<nat>, n: nat, w: nat,
                                       q: Table, s: seq<Ptr>, i: nat, t: seq<Ptr>, woken: seq<Ptr>, moved: seq<Ptr>)
    requires Requeueing(q0, s0, t0, key1, key2, lock, n, w, q, s, i, t, woken, moved)
    requires i == |s| || |woken| + |moved| == n
    ensures var h := Hits(q0, s0, key1, None);
            && s == Rest(q0, s0, key1, None, if lock.None? then w else n)
            && |woken| + |moved| == Min(n, |h|) && woken == h[..Min(w, |h|)] && moved == h[Min(w, |h|)..Min(n, |h|)]
  {
    ScanDone(q0, s0, key1, None, if lock.None? then w else n, n, s, i, woken + moved);
  }

  /** The chain a waiter is moved to is in order again. */
  lemma {:induction false} MovedTo(c: seq<Ptr>, q: Table, q': Table, m: seq<Ptr>, b: nat, hash: Key -> nat)
    requires OnChain(c, q, b, hash) && NoDup(m) && Apart(c, m)
    requires forall x :: x in c ==> x in q' && q'[x] == q[x]
    requires forall x :: x in m ==> x in q' && q'[x].lockPtr == Some(b) && hash(q'[x].key) == b
    ensures OnChain(c + m, q', b, hash)
  {
    NoDupAppend(c, m);
  }

  ghost predicate Apart(c: seq<Ptr>, m: seq<Ptr>) {
    forall x :: x in c ==> x !in m
  }

  /** Requeueing keeps every chain in order. */
  lemma {:induction false} RequeueKeeps(chain: map<nat, seq<Ptr>>, q: Table, hash: Key -> nat, key1: Key, key2: Key, handled: nat, woken: nat)
    requires Queues(chain, q, hash) && woken <= handled
    ensures var b1, b2 := hash(key1), hash(key2);
            var h := Hits(q, chain[b1], key1, None);
            Queues(Requeued(chain, q, b1, b2, key1, handled, woken),
                   After(q, h[..Min(woken, |h|)], h[Min(woken, |h|)..Min(handled, |h|)], key2, if b1 == b2 then None else Some(b2)), hash)
  {
    var b1, b2 := hash(key1), hash(key2);
    var s := chain[b1];
    var h := Hits(q, s, key1, None);
    var w, m := h[..Min(woken, |h|)], h[Min(woken, |h|)..Min(handled, |h|)];
    var c := Requeued(chain, q, b1, b2, key1, handled, woken);
    var q' := After(q, w, m, key2, if b1 == b2 then None else Some(b2));
    assert OnChain(chain[b1], q, b1, hash) && OnChain(chain[b2], q, b2, hash);
    SplitHits(q, s, key1, handled, woken);
    RestApart(q, s, key1, None, if b1 == b2 then woken else handled);
    forall b | b in c ensures OnChain(c[b], q', b, hash) {
      assert OnChain(chain[b], q, b, hash);
      if b == b2 && b1 != b2 {
        MovedTo(chain[b2], q, q', m, b2, hash);
      }
    }
  }

  class FutexTable {
    var chain: map<nat, seq<Ptr>>
    var q: Table
    const hash: Key -> nat

    ghost predicate Valid()
      reads this
    {
      Queues(chain, q, hash)
    }

    /** wake_futex, after the entry has left its chain: clear its lock pointer. */
    method WakeFutex(x: Ptr)
      requires x in q
      modifies `q
      ensures q == old(q)[x := old(q)[x].(lockPtr := None)]
    {
      q := q[x := q[x].(lockPtr := None)];
    }

    /** The loop shared by futex_wake and futex_wake_op: wakes matching waiters until nrWake are woken, one at least. */
    method WakeScan(b: nat, key: Key, bits: Option<set<nat>>, nrWake: int) returns (ret: int, ghost woken: seq<Ptr>)
      requires Valid() && b in chain
      modifies this
      ensures Valid()
      ensures var h := Hits(old(q), old(chain)[b], key, bits);
              && woken == h[..Min(Max(nrWake, 1), |h|)] && ret == |woken|
              && chain == old(chain)[b := Rest(old(q), old(chain)[b], key, bits, Max(nrWake, 1))]
      ensures q == Woken(old(q), woken)
    {
      ghost var s0, q0, n := chain[b], q, Max(nrWake, 1);
      assert OnChain(s0, q0, b, hash);
      var s, i := chain[b], 0;
      ret, woken := 0, [];
      assert s[0..] == s && s[..0] == [] && [] + Rest(q0, s0, key, bits, n) == Rest(q0, s0, key, bits, n);
      while i < |s|
        invariant ret == |woken| && ret < n
        invariant Scanned(q0, s0, key, bits, n, s, i, woken)
        invariant chain == old(chain) && q == Woken(q0, woken)
        invariant AllIn(s, q0.Keys)
        decreases |s| - i
      {
        var x := s[i];
        ScanFresh(q0, s0, key, bits, n, s, i, woken);
        if q[x].key == key && (bits.None? || q[x].bits * bits.value != {}) {
          ScanHit(q0, s0, key, bits, n, s, i, woken);
          s := s[..i] + s[i + 1..];
          WakeFutex(x);
          WokenAgain(q0, woken, x);
          woken, ret := woken + [x], ret + 1;
          if ret >= nrWake {
            break;
          }
        } else {
          ScanMiss(q0, s0, key, bits, n, s, i, woken);
          i := i + 1;
        }
      }
      ScanDone(q0, s0, key, bits, n, n, s, i, woken);
      chain := chain[b := s];
      WakeKeeps(old(chain), q0, hash, b, key, bits, n);
    }

    /** futex_wake. keyError is what get_futex_key returned. */
    method Wake(key: Key, keyError: int, nrWake: int, bits: set<nat>) returns (ret: int)
      requires Valid()
      modifies this
      ensures Valid()
      ensures bits == {} ==> ret == -EINVAL
      ensures bits != {} && keyError != 0 ==> ret == keyError
      ensures bits == {} || keyError != 0 ==> q == old(q) && chain == old(chain)
      ensures bits != {} && keyError == 0 ==>
                var b := hash(key);
                var h := Hits(old(q), old(chain)[b], key, Some(bits));
                && ret == Min(Max(nrWake, 1), |h|)
                && q == Woken(old(q), h[..ret])
                && chain == old(chain)[b := Rest(old(q), old(chain)[b], key, Some(bits), Max(nrWake, 1))]
      ensures bits != {} && keyError == 0 ==> Spared(old(chain)[hash(key)], old(q), chain[hash(key)], q, key, bits)
    {
      if bits == {} {
        return -EINVAL;
      }
      if keyError != 0 {
        return keyError;
      }
      ghost var woken;
      ret, woken := WakeScan(hash(key), key, Some(bits), nrWake);
      WakeSpares(old(q), old(chain)[hash(key)], key, bits, Max(nrWake, 1));
    }

    /** futex_wake_op once both keys are known; opRet is the first result of futex_atomic_op_inuser other than -EFAULT. */
    method WakeOp(key1: Key, key2: Key, nrWake: int, nrWake2: int, opRet: int) returns (ret: int)
      requires Valid()
      modifies this
      ensures Valid()
      ensures opRet < 0 ==> ret == opRet && q == old(q) && chain == old(chain)
      ensures opRet >= 0 ==>
                var b1, b2, n1, n2 := hash(key1), hash(key2), Max(nrWake, 1), Max(nrWake2, 1);
                var h1 := Hits(old(q), old(chain)[b1], key1, None);
                var c1 := old(chain)[b1 := Rest(old(q), old(chain)[b1], key1, None, n1)];
                var w1 := h1[..Min(n1, |h1|)];
                if opRet == 0 then ret == |w1| && q == Woken(old(q), w1) && chain == c1
                else
                  var q1 := Woken(old(q), w1);
                  var h2 := Hits(q1, c1[b2], key2, None);
                  var w2 := h2[..Min(n2, |h2|)];
                  && ret == |w1| + |w2| && q == Woken(q1, w2)
                  && chain == c1[b2 := Rest(q1, c1[b2], key2, None, n2)]
    {
      if opRet < 0 {
        return opRet;
      }
      ghost var woken;
      ret, woken := WakeScan(hash(key1), key1, None, nrWake);
      if opRet > 0 {
        var more;
        more, woken := WakeScan(hash(key2), key2, None, nrWake2);
        ret := ret + more;
      }
    }
  
    /** One round of futex_requeue's loop, at position i of chain s. */
    method RequeueEntry(ghost q0: Table, ghost s0: seq<Ptr>, ghost t0: seq<Ptr>, key1: Key, key2: Key, lock: Option<nat>,
                        nrWake: int, nrRequeue: int, s: seq<Ptr>, i: nat, t: seq<Ptr>, taskCount: int, ghost woken: seq<Ptr>, ghost moved: seq<Ptr>)
      returns (s': seq<Ptr>, i': nat, t': seq<Ptr>, count: int, ghost woken': seq<Ptr>, ghost moved': seq<Ptr>)
      requires i < |s| && taskCount == |woken| + |moved| && taskCount - nrWake < nrRequeue
      requires Requeueing(q0, s0, t0, key1, key2, lock, Handled(nrWake, nrRequeue), ToWake(nrWake, nrRequeue), q, s, i, t, woken, moved)
      modifies `q
      ensures count == |woken'| + |moved'| && |s'| - i' < |s| - i
      ensures Requeueing(q0, s0, t0, key1, key2, lock, Handled(nrWake, nrRequeue), ToWake(nrWake, nrRequeue), q, s', i', t', woken', moved')
    {
      ghost var n, w := Handled(nrWake, nrRequeue), ToWake(nrWake, nrRequeue);
      s', i', t', count, woken', moved' := s, i, t, taskCount, woken, moved;
      var x := s[i];
      RequeueMiss(q0, s0, t0, key1, key2, lock, n, w, q, s, i, t, woken, moved);
      if q[x].key != key1 {
        i' := i + 1;
        return;
      }
      count := count + 1;
      if count <= nrWake {
        RequeueWake(q0, s0, t0, key1, key2, lock, n, w, q, s, i, t, woken, moved);
        s', woken' := s[..i] + s[i + 1..], woken + [x];
        WakeFutex(x);
        return;
      }
      RequeueMove(q0, s0, t0, key1, key2, lock, n, w, q, s, i, t, woken, moved);
      if lock.Some? {
        s', t' := s[..i] + s[i + 1..], t + [x];
      } else {
        i' := i + 1;
      }
      moved' := moved + [x];
      q := q[x := q[x].(key := key2, lockPtr := if lock.Some? then lock else q[x].lockPtr)];
    }

    /** The loop of futex_requeue over the chain s of hash(key1), with t the chain of hash(key2). */
    method RequeueScan(b1: nat, b2: nat, key1: Key, key2: Key, nrWake: int, nrRequeue: int)
      returns (taskCount: int, s: seq<Ptr>, t: seq<Ptr>, ghost woken: seq<Ptr>, ghost moved: seq<Ptr>)
      requires b1 in chain && b2 in chain && OnChain(chain[b1], q, b1, hash)
      modifies `q
      ensures var n, w, lock := Handled(nrWake, nrRequeue), ToWake(nrWake, nrRequeue), if b1 == b2 then None else Some(b2);
              var h := Hits(old(q), chain[b1], key1, None);
              && taskCount == Min(n, |h|) && woken == h[..Min(w, |h|)] && moved == h[Min(w, |h|)..taskCount]
              && q == After(old(q), woken, moved, key2, lock)
              && s == Rest(old(q), chain[b1], key1, None, if b1 == b2 then w else n)
              && (b1 != b2 ==> t == chain[b2] + moved)
    {
      ghost var s0, t0, q0, n, w := chain[b1], chain[b2], q, Handled(nrWake, nrRequeue), ToWake(nrWake, nrRequeue);
      var lock := if b1 == b2 then None else Some(b2);
      var i: nat := 0;
      s, t := chain[b1], chain[b2];
      taskCount, woken, moved := 0, [], [];
      RequeueBegin(q, s, t, key1, key2, lock, n, w);
      while i < |s|
        invariant taskCount == |woken| + |moved|
        invariant Requeueing(q0, s0, t0, key1, key2, lock, n, w, q, s, i, t, woken, moved)
        decreases |s| - i
      {
        if taskCount - nrWake >= nrRequeue {
          break;
        }
        s, i, t, taskCount, woken, moved :=
          RequeueEntry(q0, s0, t0, key1, key2, lock, nrWake, nrRequeue, s, i, t, taskCount, woken, moved);
      }
      RequeueDone(q0, s0, t0, key1, key2, lock, n, w, q, s, i, t, woken, moved);
    }

    /** futex_requeue. keyError is what get_futex_key returned; cmp is the futex word and the value it is compared with, if any. */
    method Requeue(key1: Key, key2: Key, keyError: int, nrWake: int, nrRequeue: int, cmp: Option<(int, int)>) returns (ret: int)
      requires Valid()
      modifies this
      ensures Valid()
      ensures keyError != 0 ==> ret == keyError
      ensures keyError == 0 && cmp.Some? && cmp.value.0 != cmp.value.1 ==> ret == -EAGAIN
      ensures keyError != 0 || (cmp.Some? && cmp.value.0 != cmp.value.1) ==> q == old(q) && chain == old(chain)
      ensures keyError == 0 && (cmp.Some? ==> cmp.value.0 == cmp.value.1) ==>
                var b1, b2, n, w := hash(key1), hash(key2), Handled(nrWake, nrRequeue), ToWake(nrWake, nrRequeue);
                var h := Hits(old(q), old(chain)[b1], key1, None);
                && ret == Min(n, |h|)
                && q == After(old(q), h[..Min(w, |h|)], h[Min(w, |h|)..ret], key2, if b1 == b2 then None else Some(b2))
                && chain == Requeued(old(chain), old(q), b1, b2, key1, n, w)
    {
      if keyError != 0 {
        return keyError;
      }
      if cmp.Some? && cmp.value.0 != cmp.value.1 {
        return -EAGAIN;
      }
      var b1, b2, s, t := hash(key1), hash(key2), [], [];
      ghost var woken, moved;
      ret, s, t, woken, moved := RequeueScan(b1, b2, key1, key2, nrWake, nrRequeue);
      chain := if b1 == b2 then chain[b1 := s] else chain[b1 := s][b2 := t];
      RequeueKeeps(old(chain), old(q), hash, key1, key2, Handled(nrWake, nrRequeue), ToWake(nrWake, nrRequeue));
    }
  }
}
